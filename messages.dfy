/** The algebra of exponential-family messages (autofit/messages/abstract.py).

    A message is a point of an exponential family: its `parameters` (one
    array per family parameter, flattened here to a row of elements), a
    `log_norm` offset and the `id` of the variable it is about. The family's
    own maps between parameters and natural parameters are not modelled:
    a `Family` carries them as functions. Numbers are IEEE doubles reduced to
    what the algebra needs: a finite real, +inf, -inf or NaN. */
module Messages {
  import opened Wrappers
  import Text

  // ---------------------------------------------------------------------
  // Doubles: finite values and the three non-finite ones

  datatype Float = Fin(v: real) | PosInf | NegInf | NaN

  /** `a + b` on doubles (overflow of two finite values is not modelled). */
  function Add(a: Float, b: Float): Float
  {
    match (a, b)
    case (NaN, _) => NaN
    case (_, NaN) => NaN
    case (PosInf, NegInf) => NaN
    case (NegInf, PosInf) => NaN
    case (PosInf, _) => PosInf
    case (_, PosInf) => PosInf
    case (NegInf, _) => NegInf
    case (_, NegInf) => NegInf
    case (Fin(x), Fin(y)) => Fin(x + y)
  }

  function Neg(a: Float): Float
  {
    match a
    case Fin(x) => Fin(-x)
    case PosInf => NegInf
    case NegInf => PosInf
    case NaN => NaN
  }

  /** `a - b`, which IEEE defines as `a + (-b)`. */
  function Sub(a: Float, b: Float): Float
  {
    Add(a, Neg(b))
  }

  /** `k * a` for a finite real `k`; `0 * inf` is NaN. */
  function Scale(k: real, a: Float): Float
  {
    match a
    case Fin(x) => Fin(k * x)
    case NaN => NaN
    case PosInf => if k > 0.0 then PosInf else if k < 0.0 then NegInf else NaN
    case NegInf => if k > 0.0 then NegInf else if k < 0.0 then PosInf else NaN
  }

  /** `a <= b` on doubles: false whenever either side is NaN. */
  predicate AtMost(a: Float, b: Float)
  {
    !a.NaN? && !b.NaN? && (a.NegInf? || b.PosInf? || (a.Fin? && b.Fin? && a.v <= b.v))
  }

  /** `np.log(c)` for a real `c`: -inf at 0 and NaN below it. The logarithm
      itself is a parameter, since Dafny has no transcendental functions. */
  function Log(ln: real -> real, c: real): (r: Float)
    ensures r.Fin? <==> c > 0.0
    ensures c > 0.0 ==> r == Fin(ln(c))
    ensures c == 0.0 ==> r == NegInf
    ensures c < 0.0 ==> r == NaN
  {
    if c > 0.0 then Fin(ln(c)) else if c == 0.0 then NegInf else NaN
  }

  /** `x - x` is zero exactly for a finite `x`. */
  lemma SubSelf(x: Float)
    ensures Sub(x, x) == Fin(0.0) <==> x.Fin?
    ensures !x.Fin? ==> Sub(x, x) == NaN
  {
  }

  /** `(a + b) - b == a` for finite values. */
  lemma AddSubCancel(a: Float, b: Float)
    requires a.Fin? && b.Fin?
    ensures Sub(Add(a, b), b) == a
  {
  }

  /** Scaling twice is scaling by the product, inf and NaN included. */
  lemma ScaleScale(j: real, k: real, x: Float)
    ensures Scale(k, Scale(j, x)) == Scale(j * k, x)
  {
    if x.PosInf? || x.NegInf? {
      if j > 0.0 && k > 0.0 { assert j * k > 0.0; }
      if j > 0.0 && k < 0.0 { assert j * k < 0.0; }
      if j < 0.0 && k > 0.0 { assert j * k < 0.0; }
      if j < 0.0 && k < 0.0 { assert j * k > 0.0; }
    }
  }

  // ---------------------------------------------------------------------
  // Arrays of parameters: one row per family parameter, one column per element

  type Params = seq<seq<Float>>

  predicate SameShape(a: Params, b: Params)
  {
    |a| == |b| && forall i :: 0 <= i < |a| ==> |a[i]| == |b[i]|
  }

  function AddParams(a: Params, b: Params): (r: Params)
    requires SameShape(a, b)
    ensures SameShape(r, a)
    ensures forall i, j :: 0 <= i < |r| && 0 <= j < |r[i]| ==> r[i][j] == Add(a[i][j], b[i][j])
  {
    seq(|a|, i requires 0 <= i < |a| =>
      seq(|a[i]|, j requires 0 <= j < |a[i]| => Add(a[i][j], b[i][j])))
  }

  function SubParams(a: Params, b: Params): (r: Params)
    requires SameShape(a, b)
    ensures SameShape(r, a)
    ensures forall i, j :: 0 <= i < |r| && 0 <= j < |r[i]| ==> r[i][j] == Sub(a[i][j], b[i][j])
  {
    seq(|a|, i requires 0 <= i < |a| =>
      seq(|a[i]|, j requires 0 <= j < |a[i]| => Sub(a[i][j], b[i][j])))
  }

  function ScaleParams(k: real, a: Params): (r: Params)
    ensures SameShape(r, a)
    ensures forall i, j :: 0 <= i < |r| && 0 <= j < |r[i]| ==> r[i][j] == Scale(k, a[i][j])
  {
    seq(|a|, i requires 0 <= i < |a| =>
      seq(|a[i]|, j requires 0 <= j < |a[i]| => Scale(k, a[i][j])))
  }

  predicate AllFinite(a: Params)
  {
    forall i, j :: 0 <= i < |a| && 0 <= j < |a[i]| ==> a[i][j].Fin?
  }

  // ---------------------------------------------------------------------
  // Families and messages

  /** An inclusive support interval; either bound may be infinite. */
  datatype Interval = Interval(lo: Float, hi: Float)

  /** A message class: its name, its maps between parameters and natural
      parameters (`natural_parameters`, `invert_natural_parameters`), the
      optional `_parameter_support` and the optional `_projection_class`. */
  datatype Family = Family(
    name: string,
    natural: Params -> Params,
    invert: Params -> Params,
    parameterSupport: Option<seq<Interval>>,
    projection: Option<Family>)

  /** `cls._projection_class or cls`. */
  function ProjectionOf(f: Family): Family
  {
    if f.projection.Some? then f.projection.value else f
  }

  /** The family's two maps are inverse in the direction the algebra uses:
      re-reading the natural parameters of a message built from natural
      parameters gives them back. */
  ghost predicate InvertsNatural(f: Family)
  {
    forall p :: f.natural(f.invert(p)) == p
  }

  datatype Message = Message(family: Family, parameters: Params, logNorm: Float, id: int)

  function NaturalParameters(m: Message): Params
  {
    m.family.natural(m.parameters)
  }

  /** `cls.from_natural_parameters(natural, log_norm=..., id_=...)`. */
  function FromNaturalParameters(f: Family, natural: Params, logNorm: Float, id: int): (m: Message)
    ensures m.id == id && m.logNorm == logNorm
    ensures InvertsNatural(ProjectionOf(f)) ==> NaturalParameters(m) == natural
  {
    var g := ProjectionOf(f);
    Message(g, g.invert(natural), logNorm, id)
  }

  datatype Error =
    | IdMismatch(selfId: int, otherId: int)  // the AssertionError of assert_ids_match
    | ShapeMismatch                           // numpy cannot combine the two arrays

  /** What `*` and `/` accept on the right: another message or a real number. */
  datatype Operand = Msg(m: Message) | Scalar(c: real)

  /** The check of `assert_ids_match`, with the module-level `enforce_id_match`
      passed as `strict`: only a message operand is compared. */
  function CheckIds(strict: bool, self: Message, other: Operand): (r: Result<(), Error>)
    ensures r.Err? <==> strict && other.Msg? && other.m.id != self.id
  {
    if strict && other.Msg? && self.id != other.m.id then Err(IdMismatch(self.id, other.m.id))
    else Ok(())
  }

  // ---------------------------------------------------------------------
  // Multiplication: sum_natural_parameters

  /** An item `_iter_dists` yields: a message or a scalar. */
  datatype Dist = DistMessage(m: Message) | DistScalar(c: real)

  /** An argument of `sum_natural_parameters`: a message, a scalar, or an
      iterable of them, which `_iter_dists` flattens one level. */
  datatype DistArg = One(d: Dist) | Many(ds: seq<Dist>)

  function IterDists(args: seq<DistArg>): (r: seq<Dist>)
  {
    if |args| == 0 then []
    else (match args[0] case One(d) => [d] case Many(ds) => ds) + IterDists(args[1..])
  }

  /** The messages among the items, in order; scalars are skipped. */
  function MessagesOf(ds: seq<Dist>): (r: seq<Message>)
    ensures |r| <= |ds|
  {
    if |ds| == 0 then []
    else (if ds[0].DistMessage? then [ds[0].m] else []) + MessagesOf(ds[1..])
  }

  /** `sum((m.natural_parameters for m in ms), start)`. */
  function SumNaturals(start: Params, ms: seq<Message>): (r: Result<Params, Error>)
    ensures r.Ok? ==> SameShape(r.value, start)
    ensures r.Ok? <==> forall k :: 0 <= k < |ms| ==> SameShape(start, NaturalParameters(ms[k]))
    decreases |ms|
  {
    if |ms| == 0 then Ok(start)
    else if !SameShape(start, NaturalParameters(ms[0])) then Err(ShapeMismatch)
    else
      var rest := SumNaturals(AddParams(start, NaturalParameters(ms[0])), ms[1..]);
      assert forall k :: 1 <= k < |ms| ==> ms[k] == ms[1..][k - 1];
      rest
  }

  /** `self.sum_natural_parameters(*args)`: the unnormalised product. There is
      no id check here, only in the operators; `log_norm` is not carried
      over, so the product has `log_norm` 0. */
  function SumNaturalParameters(self: Message, args: seq<DistArg>): (r: Result<Message, Error>)
    ensures r.Ok? ==> r.value.id == self.id && r.value.logNorm == Fin(0.0)
    ensures r.Ok? ==> forall k :: 0 <= k < |MessagesOf(IterDists(args))| ==>
      SameShape(NaturalParameters(self), NaturalParameters(MessagesOf(IterDists(args))[k]))
    ensures r.Err? ==>
      exists k :: 0 <= k < |MessagesOf(IterDists(args))| &&
        !SameShape(NaturalParameters(self), NaturalParameters(MessagesOf(IterDists(args))[k]))
  {
    var ms := MessagesOf(IterDists(args));
    var sum := SumNaturals(NaturalParameters(self), ms);
    if sum.Err? then
      assert exists k :: 0 <= k < |ms| && !SameShape(NaturalParameters(self), NaturalParameters(ms[k])) by {
        var k :| 0 <= k < |ms| && !SameShape(NaturalParameters(self), NaturalParameters(ms[k]));
      }
      Err(sum.error)
    else Ok(FromNaturalParameters(self.family, sum.value, Fin(0.0), self.id))
  }

  /** `self.sub_natural_parameters(other)`: the unnormalised quotient,
      subtracting natural parameters and `log_norm`. */
  function SubNaturalParameters(strict: bool, self: Message, other: Message): (r: Result<Message, Error>)
    ensures r.Err? <==> (strict && other.id != self.id) || !SameShape(NaturalParameters(self), NaturalParameters(other))
    ensures r.Ok? ==> r.value.id == self.id && r.value.logNorm == Sub(self.logNorm, other.logNorm)
    ensures r.Ok? && InvertsNatural(ProjectionOf(self.family)) ==>
      && SameShape(NaturalParameters(r.value), NaturalParameters(self))
      && forall i, j :: 0 <= i < |NaturalParameters(self)| && 0 <= j < |NaturalParameters(self)[i]| ==>
           NaturalParameters(r.value)[i][j] == Sub(NaturalParameters(self)[i][j], NaturalParameters(other)[i][j])
  {
    var _ :- CheckIds(strict, self, Msg(other));
    if !SameShape(NaturalParameters(self), NaturalParameters(other)) then Err(ShapeMismatch)
    else
      Ok(FromNaturalParameters(self.family, SubParams(NaturalParameters(self), NaturalParameters(other)),
                               Sub(self.logNorm, other.logNorm), self.id))
  }

  /** `self * other`. */
  function Mul(ln: real -> real, strict: bool, self: Message, other: Operand): (r: Result<Message, Error>)
    ensures r.Ok? ==> r.value.id == self.id
  {
    var _ :- CheckIds(strict, self, other);
    match other
    case Msg(m) => SumNaturalParameters(self, [One(DistMessage(m))])
    case Scalar(c) => Ok(Message(self.family, self.parameters, Add(self.logNorm, Log(ln, c)), self.id))
  }

  /** `other * self` for a message `self`: `__rmul__` is `self * other`. */
  function RMul(ln: real -> real, strict: bool, self: Message, other: Operand): (r: Result<Message, Error>)
    ensures r.Ok? ==> r.value.id == self.id
  {
    var _ :- CheckIds(strict, self, other);
    Mul(ln, strict, self, other)
  }

  /** `self / other`. */
  function Div(ln: real -> real, strict: bool, self: Message, other: Operand): (r: Result<Message, Error>)
    ensures r.Ok? ==> r.value.id == self.id
  {
    var _ :- CheckIds(strict, self, other);
    match other
    case Msg(m) => SubNaturalParameters(strict, self, m)
    case Scalar(c) => Ok(Message(self.family, self.parameters, Sub(self.logNorm, Log(ln, c)), self.id))
  }

  /** `self ** k`: natural parameters and `log_norm` scaled by `k`. */
  function Pow(self: Message, k: real): (r: Message)
    ensures r.id == self.id && r.logNorm == Scale(k, self.logNorm)
  {
    FromNaturalParameters(self.family, ScaleParams(k, NaturalParameters(self)), Scale(k, self.logNorm), self.id)
  }

  // ---------------------------------------------------------------------
  // Properties of the algebra

  /** With ids enforced, every operator rejects a message about another
      variable; a scalar operand is never checked. */
  lemma IdGuard(ln: real -> real, self: Message, other: Message)
    requires self.id != other.id
    ensures Mul(ln, true, self, Msg(other)) == Err(IdMismatch(self.id, other.id))
    ensures RMul(ln, true, self, Msg(other)) == Err(IdMismatch(self.id, other.id))
    ensures Div(ln, true, self, Msg(other)) == Err(IdMismatch(self.id, other.id))
    ensures SubNaturalParameters(true, self, other) == Err(IdMismatch(self.id, other.id))
  {
  }

  /** Two messages about the same variable with natural parameters of the
      same shape multiply to a message about that variable whose natural
      parameters are the elementwise sums. */
  lemma MulAddsNaturalParameters(ln: real -> real, strict: bool, a: Message, b: Message)
    requires a.id == b.id
    requires SameShape(NaturalParameters(a), NaturalParameters(b))
    requires InvertsNatural(ProjectionOf(a.family))
    ensures Mul(ln, strict, a, Msg(b)).Ok?
    ensures NaturalParameters(Mul(ln, strict, a, Msg(b)).value) == AddParams(NaturalParameters(a), NaturalParameters(b))
    ensures Mul(ln, strict, a, Msg(b)).value.id == a.id
  {
    var args := [One(DistMessage(b))];
    assert IterDists(args) == [DistMessage(b)];
    assert MessagesOf([DistMessage(b)]) == [b];
    var sum := AddParams(NaturalParameters(a), NaturalParameters(b));
    assert SumNaturals(NaturalParameters(a), [b]) == SumNaturals(sum, []);
  }

  /** Two messages about the same variable with natural parameters of the
      same shape divide to a message about that variable whose natural
      parameters are the elementwise differences and whose `log_norm` is the
      difference of theirs. */
  lemma DivSubtractsNaturalParameters(ln: real -> real, strict: bool, a: Message, b: Message)
    requires a.id == b.id
    requires SameShape(NaturalParameters(a), NaturalParameters(b))
    requires InvertsNatural(ProjectionOf(a.family))
    ensures Div(ln, strict, a, Msg(b)).Ok?
    ensures NaturalParameters(Div(ln, strict, a, Msg(b)).value) == SubParams(NaturalParameters(a), NaturalParameters(b))
    ensures Div(ln, strict, a, Msg(b)).value.logNorm == Sub(a.logNorm, b.logNorm)
    ensures Div(ln, strict, a, Msg(b)).value.id == a.id
  {
  }

  /** Dividing a product by the message it was multiplied by gives back the
      natural parameters of the first factor wherever both are finite. */
  lemma MulThenDivRestores(ln: real -> real, strict: bool, a: Message, b: Message)
    requires a.id == b.id
    requires SameShape(NaturalParameters(a), NaturalParameters(b))
    requires InvertsNatural(ProjectionOf(a.family)) && InvertsNatural(ProjectionOf(ProjectionOf(a.family)))
    requires forall i, j :: 0 <= i < |NaturalParameters(a)| && 0 <= j < |NaturalParameters(a)[i]| ==>
      NaturalParameters(a)[i][j].Fin? && NaturalParameters(b)[i][j].Fin?
    ensures Mul(ln, strict, a, Msg(b)).Ok?
    ensures Div(ln, strict, Mul(ln, strict, a, Msg(b)).value, Msg(b)).Ok?
    ensures NaturalParameters(Div(ln, strict, Mul(ln, strict, a, Msg(b)).value, Msg(b)).value) == NaturalParameters(a)
  {
    MulAddsNaturalParameters(ln, strict, a, b);
    var p := Mul(ln, strict, a, Msg(b)).value;
    var na, nb := NaturalParameters(a), NaturalParameters(b);
    assert NaturalParameters(p) == AddParams(na, nb);
    assert p.family == ProjectionOf(a.family);
    DivSubtractsNaturalParameters(ln, strict, p, b);
    var q := SubParams(AddParams(na, nb), nb);
    forall i | 0 <= i < |q|
      ensures q[i] == na[i]
    {
      forall j | 0 <= j < |q[i]|
        ensures q[i][j] == na[i][j]
      {
        AddSubCancel(na[i][j], nb[i][j]);
      }
    }
    assert q == na;
  }

  /** `sum_natural_parameters` skips scalars: they change nothing. */
  lemma {:induction false} ScalarsSkipped(ds: seq<Dist>)
    requires forall k :: 0 <= k < |ds| ==> ds[k].DistScalar?
    ensures MessagesOf(ds) == []
  {
    if |ds| > 0 { ScalarsSkipped(ds[1..]); }
  }

  /** `_iter_dists` yields the items of each argument in argument order. */
  lemma {:induction false} IterDistsConcat(a: seq<DistArg>, b: seq<DistArg>)
    ensures IterDists(a + b) == IterDists(a) + IterDists(b)
  {
    if |a| > 0 {
      assert (a + b)[1..] == a[1..] + b;
      IterDistsConcat(a[1..], b);
    } else {
      assert a + b == b;
    }
  }

  /** The messages of a concatenation are those of each part, in order. */
  lemma {:induction false} MessagesOfConcat(a: seq<Dist>, b: seq<Dist>)
    ensures MessagesOf(a + b) == MessagesOf(a) + MessagesOf(b)
  {
    if |a| > 0 {
      assert (a + b)[1..] == a[1..] + b;
      MessagesOfConcat(a[1..], b);
    } else {
      assert a + b == b;
    }
  }

  /** A message is summed exactly when it is one of the items. */
  lemma {:induction false} MessagesOfMembers(ds: seq<Dist>)
    ensures forall m :: m in MessagesOf(ds) <==> DistMessage(m) in ds
  {
    if |ds| > 0 {
      MessagesOfMembers(ds[1..]);
      assert ds == [ds[0]] + ds[1..];
    }
  }

  /** Python's `sum` over numbers, `((x + ys[0]) + ys[1]) + ...`: the last
      term is added last. */
  function FoldAdd(x: Float, ys: seq<Float>): Float
  {
    if |ys| == 0 then x else Add(FoldAdd(x, ys[..|ys| - 1]), ys[|ys| - 1])
  }

  /** Entry `(i, j)` of each message's natural parameters, in order. */
  function EntryColumn(ms: seq<Message>, i: nat, j: nat): (r: seq<Float>)
    requires forall k :: 0 <= k < |ms| ==> i < |NaturalParameters(ms[k])| && j < |NaturalParameters(ms[k])[i]|
    ensures |r| == |ms|
  {
    seq(|ms|, k requires 0 <= k < |ms| => NaturalParameters(ms[k])[i][j])
  }

  /** Adding the first term first is the same left-to-right sum. */
  lemma {:induction false} FoldAddFirst(x: Float, y: Float, ys: seq<Float>)
    ensures FoldAdd(x, [y] + ys) == FoldAdd(Add(x, y), ys)
    decreases |ys|
  {
    if |ys| > 0 {
      var init := ys[..|ys| - 1];
      assert ([y] + ys)[..|[y] + ys| - 1] == [y] + init;
      FoldAddFirst(x, y, init);
    } else {
      assert ([y] + ys)[..0] == [];
    }
  }

  /** Summing natural parameters adds, at every position, the entries of
      every message onto the start's entry, left to right. */
  lemma {:induction false} SumNaturalsElementwise(start: Params, ms: seq<Message>)
    requires forall k :: 0 <= k < |ms| ==> SameShape(start, NaturalParameters(ms[k]))
    ensures SumNaturals(start, ms).Ok?
    ensures forall i, j :: 0 <= i < |start| && 0 <= j < |start[i]| ==>
      SumNaturals(start, ms).value[i][j] == FoldAdd(start[i][j], EntryColumn(ms, i, j))
    decreases |ms|
  {
    if |ms| > 0 {
      var next := AddParams(start, NaturalParameters(ms[0]));
      forall k | 0 <= k < |ms[1..]|
        ensures SameShape(next, NaturalParameters(ms[1..][k]))
      {
        assert ms[1..][k] == ms[k + 1];
      }
      SumNaturalsElementwise(next, ms[1..]);
      assert SumNaturals(start, ms) == SumNaturals(next, ms[1..]);
      forall i, j | 0 <= i < |start| && 0 <= j < |start[i]|
        ensures SumNaturals(start, ms).value[i][j] == FoldAdd(start[i][j], EntryColumn(ms, i, j))
      {
        var y := NaturalParameters(ms[0])[i][j];
        assert EntryColumn(ms, i, j) == [y] + EntryColumn(ms[1..], i, j);
        FoldAddFirst(start[i][j], y, EntryColumn(ms[1..], i, j));
      }
    }
  }

  /** The unnormalised product has, at every position, `self`'s natural
      parameter plus that of every message argument, left to right in
      argument order, scalars skipped. */
  lemma SumNaturalParametersElementwise(self: Message, args: seq<DistArg>)
    requires InvertsNatural(ProjectionOf(self.family))
    requires forall k :: 0 <= k < |MessagesOf(IterDists(args))| ==>
      SameShape(NaturalParameters(self), NaturalParameters(MessagesOf(IterDists(args))[k]))
    ensures SumNaturalParameters(self, args).Ok?
    ensures var n := NaturalParameters(self); var p := NaturalParameters(SumNaturalParameters(self, args).value);
      && SameShape(p, n)
      && forall i, j :: 0 <= i < |n| && 0 <= j < |n[i]| ==>
           p[i][j] == FoldAdd(n[i][j], EntryColumn(MessagesOf(IterDists(args)), i, j))
  {
    SumNaturalsElementwise(NaturalParameters(self), MessagesOf(IterDists(args)));
  }

  /** The natural parameters of `m / m` are all zero exactly when the
      natural parameters of `m` are all finite, and its `log_norm` is zero
      exactly when that of `m` is finite. */
  lemma DivSelfIsIdentity(ln: real -> real, strict: bool, m: Message)
    requires InvertsNatural(ProjectionOf(m.family))
    ensures Div(ln, strict, m, Msg(m)).Ok?
    ensures var q := Div(ln, strict, m, Msg(m)).value;
      && q.id == m.id
      && ((forall i, j :: 0 <= i < |NaturalParameters(q)| && 0 <= j < |NaturalParameters(q)[i]| ==>
             NaturalParameters(q)[i][j] == Fin(0.0)) <==> AllFinite(NaturalParameters(m)))
      && SameShape(NaturalParameters(q), NaturalParameters(m))
      && (q.logNorm == Fin(0.0) <==> m.logNorm.Fin?)
  {
    var n := NaturalParameters(m);
    var q := Div(ln, strict, m, Msg(m)).value;
    assert NaturalParameters(q) == SubParams(n, n);
    forall i, j | 0 <= i < |n| && 0 <= j < |n[i]|
      ensures SubParams(n, n)[i][j] == Fin(0.0) <==> n[i][j].Fin?
    {
      SubSelf(n[i][j]);
    }
    SubSelf(m.logNorm);
  }

  /** Multiplying by a positive real shifts `log_norm` by its logarithm and
      keeps parameters, family and id; dividing by it again restores `log_norm`. */
  lemma ScalarMulThenDiv(ln: real -> real, strict: bool, m: Message, c: real)
    requires c > 0.0 && m.logNorm.Fin?
    ensures Mul(ln, strict, m, Scalar(c)).Ok?
    ensures var p := Mul(ln, strict, m, Scalar(c)).value;
      && p.parameters == m.parameters && p.id == m.id && p.family == m.family
      && p.logNorm == Fin(m.logNorm.v + ln(c))
      && Div(ln, strict, p, Scalar(c)).Ok?
      && Div(ln, strict, p, Scalar(c)).value.logNorm == m.logNorm
      && Div(ln, strict, p, Scalar(c)).value.parameters == m.parameters
  {
  }

  /** `m ** k` scales every natural parameter by `k`. */
  lemma PowScalesNaturalParameters(m: Message, k: real)
    requires InvertsNatural(ProjectionOf(m.family))
    ensures NaturalParameters(Pow(m, k)) == ScaleParams(k, NaturalParameters(m))
    ensures Pow(m, k).id == m.id
  {
  }

  /** `(m ** j) ** k` has the natural parameters and `log_norm` of `m ** (j * k)`. */
  lemma PowPow(m: Message, j: real, k: real)
    requires InvertsNatural(ProjectionOf(m.family))
    requires ProjectionOf(ProjectionOf(m.family)) == ProjectionOf(m.family)
    ensures NaturalParameters(Pow(Pow(m, j), k)) == NaturalParameters(Pow(m, j * k))
    ensures Pow(Pow(m, j), k).logNorm == Pow(m, j * k).logNorm
  {
    var n := NaturalParameters(m);
    var once := Pow(m, j);
    assert NaturalParameters(once) == ScaleParams(j, n);
    var lhs := ScaleParams(k, ScaleParams(j, n));
    var rhs := ScaleParams(j * k, n);
    assert |lhs| == |rhs|;
    forall i | 0 <= i < |lhs| ensures lhs[i] == rhs[i] {
      forall e | 0 <= e < |lhs[i]| ensures lhs[i][e] == rhs[i][e] {
        ScaleScale(j, k, n[i][e]);
      }
    }
    ScaleScale(j, k, m.logNorm);
  }

  // ---------------------------------------------------------------------
  // Validity

  /** Every row of the parameters and of the natural parameters has the same
      number of elements `n`: the broadcast shape of the message. */
  predicate WellFormed(m: Message)
  {
    var np := NaturalParameters(m);
    && |m.parameters| > 0 && |np| > 0
    && (forall i :: 0 <= i < |m.parameters| ==> |m.parameters[i]| == |m.parameters[0]|)
    && (forall i :: 0 <= i < |np| ==> |np[i]| == |m.parameters[0]|)
    && (m.family.parameterSupport.Some? ==> |m.family.parameterSupport.value| > 0)
  }

  function Size(m: Message): nat
    requires WellFormed(m)
  {
    |m.parameters[0]|
  }

  /** `check_finite()`: per element, every natural parameter is finite. */
  function CheckFinite(m: Message): (r: seq<bool>)
    requires WellFormed(m)
    ensures |r| == Size(m)
    ensures forall j :: 0 <= j < |r| ==>
      (r[j] <==> forall i :: 0 <= i < |NaturalParameters(m)| ==> NaturalParameters(m)[i][j].Fin?)
  {
    var np := NaturalParameters(m);
    seq(Size(m), j requires 0 <= j < Size(m) => forall i :: 0 <= i < |np| ==> np[i][j].Fin?)
  }

  function Within(p: Float, iv: Interval): bool
  {
    AtMost(iv.lo, p) && AtMost(p, iv.hi)
  }

  /** `check_support()`: per element, each parameter lies in its inclusive
      support interval (parameters and intervals paired as `zip` pairs them);
      all true when the family declares no support. */
  function CheckSupport(m: Message): (r: seq<bool>)
    requires WellFormed(m)
    ensures |r| == Size(m)
  {
    match m.family.parameterSupport
    case None => seq(Size(m), j => true)
    case Some(support) =>
      var n := if |support| < |m.parameters| then |support| else |m.parameters|;
      seq(Size(m), j requires 0 <= j < Size(m) =>
        forall i :: 0 <= i < n ==> Within(m.parameters[i][j], support[i]))
  }

  /** `check_valid()`: finite and supported, element by element. */
  function CheckValid(m: Message): (r: seq<bool>)
    requires WellFormed(m)
    ensures |r| == Size(m)
    ensures forall j :: 0 <= j < |r| ==> (r[j] <==> CheckFinite(m)[j] && CheckSupport(m)[j])
  {
    seq(Size(m), j requires 0 <= j < Size(m) => CheckFinite(m)[j] && CheckSupport(m)[j])
  }

  /** `is_valid`: `all(check_finite()) and all(check_support())`. */
  predicate IsValid(m: Message)
    requires WellFormed(m)
  {
    (forall j :: 0 <= j < Size(m) ==> CheckFinite(m)[j]) && (forall j :: 0 <= j < Size(m) ==> CheckSupport(m)[j])
  }

  /** `is_valid` agrees with `check_valid` holding at every element, and a
      valid message has only finite natural parameters and every parameter
      inside its support. */
  lemma IsValidIffEveryElementValid(m: Message)
    requires WellFormed(m)
    ensures IsValid(m) <==> forall j :: 0 <= j < Size(m) ==> CheckValid(m)[j]
    ensures IsValid(m) ==> AllFinite(NaturalParameters(m))
    ensures IsValid(m) && m.family.parameterSupport.Some? ==>
      var s := m.family.parameterSupport.value;
      forall i, j :: 0 <= i < |s| && i < |m.parameters| && 0 <= j < Size(m) ==> Within(m.parameters[i][j], s[i])
  {
    if IsValid(m) {
      var np: Params := NaturalParameters(m);
      forall i, j | 0 <= i < |np| && 0 <= j < |np[i]| ensures np[i][j].Fin? {
        assert CheckFinite(m)[j];
      }
      if m.family.parameterSupport.Some? {
        var s := m.family.parameterSupport.value;
        forall i, j | 0 <= i < |s| && i < |m.parameters| && 0 <= j < Size(m)
          ensures Within(m.parameters[i][j], s[i])
        {
          assert CheckSupport(m)[j];
        }
      }
    }
    if forall j :: 0 <= j < Size(m) ==> CheckValid(m)[j] {
      forall j | 0 <= j < Size(m) ensures CheckFinite(m)[j] && CheckSupport(m)[j] {
        assert CheckValid(m)[j];
      }
    }
  }

  /** `self.update_invalid(other)`: each element of each parameter is kept
      where `check_valid` holds and taken from `other` where it does not;
      family, `log_norm` and id stay those of `self`. */
  function UpdateInvalid(self: Message, other: Message): (r: Message)
    requires WellFormed(self) && SameShape(self.parameters, other.parameters)
    ensures r.id == self.id && r.logNorm == self.logNorm && r.family == self.family
    ensures SameShape(r.parameters, self.parameters)
    ensures forall i, j :: 0 <= i < |r.parameters| && 0 <= j < Size(self) ==>
      r.parameters[i][j] == (if CheckValid(self)[j] then self.parameters[i][j] else other.parameters[i][j])
  {
    var valid := CheckValid(self);
    var ps := seq(|self.parameters|, i requires 0 <= i < |self.parameters| =>
      seq(|self.parameters[i]|, j requires 0 <= j < |self.parameters[i]| =>
        if valid[j] then self.parameters[i][j] else other.parameters[i][j]));
    Message(self.family, ps, self.logNorm, self.id)
  }

  /** Replacing the invalid elements of a valid message changes nothing. */
  lemma UpdateInvalidOfValid(self: Message, other: Message)
    requires WellFormed(self) && SameShape(self.parameters, other.parameters)
    requires IsValid(self)
    ensures UpdateInvalid(self, other).parameters == self.parameters
  {
    IsValidIffEveryElementValid(self);
    var r := UpdateInvalid(self, other);
    forall i | 0 <= i < |r.parameters| ensures r.parameters[i] == self.parameters[i] {
    }
  }

  // ---------------------------------------------------------------------
  // _get_mean_variance

  /** A numpy array: its shape and its elements in row-major order. */
  datatype NdArray = NdArray(shape: seq<nat>, data: seq<real>)

  function Product(s: seq<nat>): nat
  {
    if |s| == 0 then 1 else s[0] * Product(s[1..])
  }

  lemma {:induction false} ProductAppend(a: seq<nat>, b: seq<nat>)
    ensures Product(a + b) == Product(a) * Product(b)
  {
    if |a| > 0 {
      assert (a + b)[1..] == a[1..] + b;
      ProductAppend(a[1..], b);
    } else {
      assert a + b == b;
    }
  }

  predicate WellShaped(x: NdArray)
  {
    |x.data| == Product(x.shape)
  }

  /** `_get_mean_variance(mean, covariance)`: the variance is the covariance
      broadcast from a scalar, the covariance itself when it has the mean's
      shape, or the diagonal of a covariance of shape `mean.shape * 2`;
      any other covariance shape is a ValueError (None here). */
  function GetMeanVariance(mean: NdArray, covariance: NdArray): (r: Option<(NdArray, NdArray)>)
    requires WellShaped(mean) && WellShaped(covariance)
    ensures r.Some? <==>
      covariance.shape == [] || covariance.shape == mean.shape || covariance.shape == mean.shape + mean.shape
    ensures r.Some? ==> r.value.0 == mean && r.value.1.shape == mean.shape && WellShaped(r.value.1)
  {
    var n := |mean.data|;
    if covariance.shape == [] then
      Some((mean, NdArray(mean.shape, seq(n, k => covariance.data[0]))))
    else if mean.shape == covariance.shape then
      Some((mean, covariance))
    else if covariance.shape == mean.shape + mean.shape then
      ProductAppend(mean.shape, mean.shape);
      assert |covariance.data| == n * n;
      Some((mean, NdArray(mean.shape, seq(n, k requires 0 <= k < n => DiagonalAt(covariance.data, n, k)))))
    else
      None
  }

  /** Element `(k, k)` of an `n` by `n` matrix stored row-major. */
  function DiagonalAt(data: seq<real>, n: nat, k: nat): real
    requires k < n && |data| == n * n
  {
    DiagonalIndexInRange(n, k);
    data[k * n + k]
  }

  lemma MulLeq(a: nat, b: nat, n: nat)
    requires a <= b
    ensures a * n <= b * n
  {
  }

  lemma DiagonalIndexInRange(n: nat, k: nat)
    requires k < n
    ensures k * n + k < n * n
  {
    calc {
      k * n + k;
    <
      k * n + n;
    ==
      (k + 1) * n;
    <= { MulLeq(k + 1, n, n); }
      n * n;
    }
  }

  /** A scalar covariance is broadcast to every element. */
  lemma MeanVarianceScalar(mean: NdArray, covariance: NdArray, k: nat)
    requires WellShaped(mean) && WellShaped(covariance)
    requires covariance.shape == [] && k < |mean.data|
    ensures GetMeanVariance(mean, covariance).Some?
    ensures GetMeanVariance(mean, covariance).value.1.data[k] == covariance.data[0]
  {
  }

  /** A covariance of the mean's own shape is the variance. */
  lemma MeanVarianceSameShape(mean: NdArray, covariance: NdArray)
    requires WellShaped(mean) && WellShaped(covariance)
    requires covariance.shape == mean.shape && covariance.shape != []
    ensures GetMeanVariance(mean, covariance) == Some((mean, covariance))
  {
  }

  /** A covariance of shape `mean.shape * 2` gives its diagonal. */
  lemma MeanVarianceDiagonal(mean: NdArray, covariance: NdArray, k: nat)
    requires WellShaped(mean) && WellShaped(covariance)
    requires covariance.shape == mean.shape + mean.shape && mean.shape != [] && k < |mean.data|
    ensures |covariance.data| == |mean.data| * |mean.data|
    ensures GetMeanVariance(mean, covariance).Some?
    ensures GetMeanVariance(mean, covariance).value.1.data[k] == DiagonalAt(covariance.data, |mean.data|, k)
  {
    ProductAppend(mean.shape, mean.shape);
  }

  // ---------------------------------------------------------------------
  // as_factor naming

  function EndsWith(s: string, suffix: string): bool
  {
    |suffix| <= |s| && s[|s| - |suffix|..] == suffix
  }

  /** The family part of a message class name: a trailing "Message" removed. */
  function FamilyName(className: string): string
  {
    if EndsWith(className, "Message") then className[..|className| - 7] else className
  }

  /** The factor name `as_factor` uses: the given name, or by default the
      family name, "Likelihood", and the shape when it is not `()`. */
  function FactorName(className: string, shape: seq<nat>, name: Option<string>): string
  {
    if name.Some? then name.value
    else FamilyName(className) + "Likelihood" + (if |shape| > 0 then Text.TupleString(shape) else "")
  }

  /** For a class `XMessage` the default name is "XLikelihood" followed by the
      shape; a class name without that suffix is used whole; a given name wins. */
  lemma FactorNameDefault(base: string, shape: seq<nat>, name: string)
    ensures FactorName(base + "Message", shape, None)
      == base + "Likelihood" + (if |shape| > 0 then Text.TupleString(shape) else "")
    ensures !EndsWith(base, "Message") ==> FactorName(base, [], None) == base + "Likelihood"
    ensures FactorName(base, shape, Some(name)) == name
  {
    var c := base + "Message";
    assert c[|c| - 7..] == "Message";
    assert c[..|c| - 7] == base;
  }

  /** A one-dimensional message of length 3 of class "NormalMessage" is named "NormalLikelihood(3,)". */
  lemma FactorNameExample()
    ensures FactorName("NormalMessage", [3], None) == "NormalLikelihood(3,)"
  {
    FactorNameDefault("Normal", [3], "");
    assert Text.NatToString(3) == "3";
    assert Text.Join(", ", ["3"]) == "3";
  }
}
