/** The arithmetic service: the registry of operations, and evaluating one. */
module Calc {
  import opened Float64
  import opened Options

  datatype Error = UnknownOperation | Arity | DivisionByZero | Domain | NotFinite

  datatype Result = Ok(value: Float) | Err(error: Error)

  // The function an operation is carried out by.
  datatype Fn = AddFn | SubtractFn | MultiplyFn | DivideFn | PowerFn | SqrtFn | PercentFn

  datatype Spec = Spec(name: string, symbol: string, arity: nat, fn: Fn)

  datatype Registry = Registry(specs: seq<Spec>, index: map<string, nat>)

  const SPECS: seq<Spec> := [
    Spec("add", "+", 2, AddFn),
    Spec("subtract", "\U{2212}", 2, SubtractFn),
    Spec("multiply", "\U{d7}", 2, MultiplyFn),
    Spec("divide", "\U{f7}", 2, DivideFn),
    Spec("power", "^", 2, PowerFn),
    Spec("sqrt", "\U{221a}", 1, SqrtFn),
    Spec("percent", "%", 2, PercentFn)]

  predicate DistinctNames(specs: seq<Spec>) {
    forall i, j :: 0 <= i < j < |specs| ==> specs[i].name != specs[j].name
  }

  // The index says where each name is, and of no other name.
  predicate Indexed(r: Registry) {
    && (forall name :: name in r.index ==> r.index[name] < |r.specs| && r.specs[r.index[name]].name == name)
    && (forall i :: 0 <= i < |r.specs| ==> r.specs[i].name in r.index && r.index[r.specs[i].name] == i)
  }

  predicate Standard(r: Registry) {
    r.specs == SPECS && Indexed(r)
  }

  method BuildIndex(specs: seq<Spec>) returns (index: map<string, nat>)
    requires DistinctNames(specs)
    ensures Indexed(Registry(specs, index))
  {
    index := map[];
    for i := 0 to |specs|
      invariant forall name :: name in index ==> index[name] < i && specs[index[name]].name == name
      invariant forall k :: 0 <= k < i ==> specs[k].name in index && index[specs[k].name] == k
    {
      index := index[specs[i].name := i];
    }
  }

  method NewRegistry() returns (r: Registry)
    ensures Standard(r)
  {
    var index := BuildIndex(SPECS);
    r := Registry(SPECS, index);
  }

  function Lookup(r: Registry, name: string): (spec: Option<Spec>)
    requires Indexed(r)
    ensures spec.Some? ==> spec.value in r.specs && spec.value.name == name
    ensures spec.None? ==> forall i :: 0 <= i < |r.specs| ==> r.specs[i].name != name
  {
    if name in r.index then Some(r.specs[r.index[name]]) else None
  }

  // --- the operations ------------------------------------------------------

  const HUNDRED: Float := Num(100.0)

  function DivideOp(fpu: Fpu, a: Float, b: Float): Result {
    if b.Zero? then Err(DivisionByZero) else Ok(Divide(fpu, a, b))
  }

  function PowerOp(fpu: Fpu, a: Float, b: Float): Result {
    if a.Zero? && Negative(b) then Err(DivisionByZero)
    else
      var res := fpu.pow(a, b);
      if res.NaN? then Err(Domain) else Ok(res)
  }

  function SqrtOp(fpu: Fpu, a: Float): Result {
    if Negative(a) then Err(Domain) else Ok(fpu.sqrt(a))
  }

  function PercentOp(fpu: Fpu, a: Float, b: Float): Result {
    var res := Divide(fpu, Multiply(fpu, a, b), HUNDRED);
    Ok(if res.Inf? then Multiply(fpu, a, Divide(fpu, b, HUNDRED)) else res)
  }

  function Call(fpu: Fpu, fn: Fn, a: Float, b: Float): Result {
    match fn
    case AddFn => Ok(Add(fpu, a, b))
    case SubtractFn => Ok(Subtract(fpu, a, b))
    case MultiplyFn => Ok(Multiply(fpu, a, b))
    case DivideFn => DivideOp(fpu, a, b)
    case PowerFn => PowerOp(fpu, a, b)
    case SqrtFn => SqrtOp(fpu, a)
    case PercentFn => PercentOp(fpu, a, b)
  }

  // What an operation gives is an answer only if it is finite, and then never -0.
  function Checked(res: Result): Result {
    if res.Err? then res
    else if !Finite(res.value) then Err(NotFinite)
    else Ok(DropNegativeZero(res.value))
  }

  function Evaluate(fpu: Fpu, r: Registry, name: string, a: Float, b: Option<Float>): Result
    requires Indexed(r)
  {
    var spec := Lookup(r, name);
    if spec.None? then Err(UnknownOperation)
    else if spec.value.arity == 2 && b.None? then Err(Arity)
    else if spec.value.arity == 1 && b.Some? then Err(Arity)
    else if !Finite(a) then Err(NotFinite)
    else if b.Some? && !Finite(b.value) then Err(NotFinite)
    else Checked(Call(fpu, spec.value.fn, a, b.GetOr(Zero(false))))
  }

  // --- the registry --------------------------------------------------------

  /** However it is built, the registry is the same: seven operations, each
      found under its own name and nothing else. */
  lemma StandardIsUnique(r: Registry, s: Registry)
    requires Standard(r) && Standard(s)
    ensures r == s
  {
    assert r.index.Keys == s.index.Keys by {
      forall name ensures name in r.index <==> name in s.index {
        if name in r.index {
          assert r.specs[r.index[name]] == s.specs[r.index[name]];
        }
        if name in s.index {
          assert s.specs[s.index[name]] == r.specs[s.index[name]];
        }
      }
    }
    forall name | name in r.index ensures r.index[name] == s.index[name] {
      assert s.specs[r.index[name]].name == name;
    }
    assert r.index == s.index;
  }

  lemma LookupFinds(r: Registry, i: nat)
    requires Standard(r) && i < |SPECS|
    ensures Lookup(r, SPECS[i].name) == Some(SPECS[i])
  {
    assert r.specs[i].name in r.index;
  }
}
