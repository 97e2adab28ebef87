/** Values, records and dictionary lookups shared by every presenter.

    A record is one row of a report as the presenters receive it: a Python
    dict read from a JSON document, a spreadsheet sheet or a query result.
    It is modelled as its list of (key, value) pairs in insertion order, and
    `dict.get` as a first-match lookup. */
module Common {

  datatype Option<T> = None | Some(value: T)

  /** The Python exceptions the core can raise. */
  datatype Error = TypeError | ValueError | IndexError | KeyError

  datatype Result<T> = Ok(value: T) | Err(error: Error)

  /** A field value: JSON null, a number, or a string. */
  datatype Value = Null | Num(x: real) | Str(s: string)

  /** A dict key: JSON keys are strings; spreadsheet headers may be integers. */
  datatype Key = SKey(name: string) | IKey(n: int)

  type Record = seq<(Key, Value)>

  predicate HasKey(r: Record, k: Key) {
    exists i :: 0 <= i < |r| && r[i].0 == k
  }

  /** Keys are distinct, as in every Python dict. */
  predicate DistinctKeys(r: Record) {
    forall i, j :: 0 <= i < j < |r| ==> r[i].0 != r[j].0
  }

  /** `d.get(k)`: the value stored under `k`, if any. */
  function Get(r: Record, k: Key): (v: Option<Value>)
    ensures v.None? <==> !HasKey(r, k)
    ensures v.Some? ==> (k, v.value) in r
  {
    if r == [] then None
    else if r[0].0 == k then Some(r[0].1)
    else
      assert forall i :: 1 <= i < |r| ==> r[i].0 == r[1..][i - 1].0;
      Get(r[1..], k)
  }

  /** In a dict (distinct keys) the lookup finds exactly the stored pair. */
  lemma {:induction false} GetStored(r: Record, k: Key, v: Value)
    requires DistinctKeys(r) && (k, v) in r
    ensures Get(r, k) == Some(v)
  {
    if r[0] != (k, v) {
      var i :| 0 <= i < |r| && r[i] == (k, v);
      assert r[0].0 != k;
      assert r[1..][i - 1] == (k, v);
      GetStored(r[1..], k, v);
    }
  }

  /** `d.get(k, default)` */
  function GetOr(r: Record, k: Key, default: Value): Value {
    match Get(r, k)
    case Some(v) => v
    case None => default
  }

  /** `d.get(primary, d.get(fallback, default))`: the Korean column name first,
      then its English counterpart, then the default. A key that is present
      wins even when its value is null. */
  function Resolve(r: Record, primary: string, fallback: string, default: Value): (v: Value)
    ensures HasKey(r, SKey(primary)) ==> (SKey(primary), v) in r
    ensures !HasKey(r, SKey(primary)) && HasKey(r, SKey(fallback)) ==> (SKey(fallback), v) in r
    ensures !HasKey(r, SKey(primary)) && !HasKey(r, SKey(fallback)) ==> v == default
  {
    GetOr(r, SKey(primary), GetOr(r, SKey(fallback), default))
  }

  /** The primary key shadows the fallback key whatever the fallback holds. */
  lemma ResolvePrefersPrimary(r: Record, primary: string, fallback: string, default: Value, v: Value)
    requires DistinctKeys(r) && (SKey(primary), v) in r
    ensures Resolve(r, primary, fallback, default) == v
  {
    GetStored(r, SKey(primary), v);
  }

  /** Applies f to every element in order and stops at the first error, as
      a Python loop whose body may raise. */
  function Traverse<A, B>(f: A -> Result<B>, xs: seq<A>): Result<seq<B>> {
    if xs == [] then Ok([])
    else
      match Traverse(f, xs[..|xs| - 1])
      case Err(e) => Err(e)
      case Ok(ys) =>
        match f(xs[|xs| - 1])
        case Err(e) => Err(e)
        case Ok(y) => Ok(ys + [y])
  }

  /** Traverse succeeds exactly when f succeeds on every element, and then
      holds f's results in order; otherwise it reports the first failure. */
  lemma {:induction false} TraverseSpec<A, B>(f: A -> Result<B>, xs: seq<A>)
    ensures var r := Traverse(f, xs);
      && (r.Ok? ==> |r.value| == |xs| && forall i :: 0 <= i < |xs| ==> f(xs[i]) == Ok(r.value[i]))
      && (r.Err? <==> exists i :: 0 <= i < |xs| && f(xs[i]).Err?)
      && (r.Err? ==> exists i :: 0 <= i < |xs| && f(xs[i]) == Err(r.error)
                                && forall j :: 0 <= j < i ==> f(xs[j]).Ok?)
  {
    if xs != [] {
      var init := xs[..|xs| - 1];
      TraverseSpec(f, init);
      assert forall i :: 0 <= i < |init| ==> init[i] == xs[i];
    }
  }

  /** One more element: Traverse goes on with f's result, or stops at
      its failure. */
  lemma TraverseNext<A, B>(f: A -> Result<B>, xs: seq<A>, n: nat)
    requires n < |xs| && Traverse(f, xs[..n]).Ok?
    ensures f(xs[n]).Ok? ==> Traverse(f, xs[..n + 1]) == Ok(Traverse(f, xs[..n]).value + [f(xs[n]).value])
    ensures f(xs[n]).Err? ==> Traverse(f, xs[..n + 1]) == Err(f(xs[n]).error)
  {
    assert xs[..n + 1][..n] == xs[..n];
  }

  /** Once a prefix fails, every extension fails with the same error. */
  lemma {:induction false} TraverseStops<A, B>(f: A -> Result<B>, xs: seq<A>, ys: seq<A>)
    requires xs <= ys && Traverse(f, xs).Err?
    ensures Traverse(f, ys) == Traverse(f, xs)
    decreases |ys|
  {
    if |ys| > |xs| {
      assert xs <= ys[..|ys| - 1];
      TraverseStops(f, xs, ys[..|ys| - 1]);
    } else {
      assert xs == ys;
    }
  }

  function Min(a: int, b: int): int { if a <= b then a else b }
}
