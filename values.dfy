/**
 * The dynamically typed values the order engine handles: the fields of the
 * records an Apify actor returns, an order's `order_edit_link` (-1, None or
 * a string) and the fulfillment service's JSON reply.  Python's truthiness,
 * `dict.get`, `str()` and the `>` used by `max(..., key=...)` are given
 * here with Python's meaning.
 */
module Values {
  import opened Text

  datatype Value =
    | Null
    | Bool(b: bool)
    | Int(i: int)
    | Str(s: string)
    | List(elems: seq<Value>)
    | Dict(fields: map<string, Value>)

  /** One record of an actor's dataset (a JSON object). */
  type Item = map<string, Value>

  /** Python `bool(v)`. */
  predicate Truthy(v: Value): (b: bool)
    ensures !b <==> v == Null || v == Bool(false) || v == Int(0) || v == Str("") || v == List([]) || v == Dict(map[])
  {
    match v
    case Null => false
    case Bool(b) => b
    case Int(i) => i != 0
    case Str(s) => |s| > 0
    case List(e) => |e| > 0
    case Dict(f) => |f| > 0
  }

  /** Python `d.get(key)`: the value, or None when the key is absent. */
  function Get(d: Item, key: string): (v: Value)
    ensures key !in d ==> v == Null
    ensures key in d ==> v == d[key]
  {
    if key in d then d[key] else Null
  }

  /** Python `str(v)`; containers are rendered only by their brackets. */
  function PyStr(v: Value): string {
    match v
    case Null => "None"
    case Bool(b) => if b then "True" else "False"
    case Int(i) => IntToStr(i)
    case Str(s) => s
    case List(_) => "[...]"
    case Dict(_) => "{...}"
  }

  /** Numbers (`int`, and `bool` as 0/1) compare with each other. */
  predicate IsNumber(v: Value) {
    v.Int? || v.Bool?
  }

  function NumberOf(v: Value): int
    requires IsNumber(v)
  {
    if v.Int? then v.i else if v.b then 1 else 0
  }

  /** Python `a > b` on two strings: lexicographic order of code points. */
  predicate StrGreater(a: string, b: string) {
    if |b| == 0 then |a| > 0
    else if |a| == 0 then false
    else if a[0] != b[0] then a[0] > b[0]
    else StrGreater(a[1..], b[1..])
  }

  /** Values of one kind compare: 0 for numbers, 1 for strings, 2 for the rest. */
  function Kind(v: Value): nat {
    if IsNumber(v) then 0 else if v.Str? then 1 else 2
  }

  /** `a > b` is defined in Python without raising `TypeError`. */
  predicate Comparable(a: Value, b: Value) {
    Kind(a) == Kind(b) && Kind(a) < 2
  }

  /**
   * Python `a > b`: `None` where the comparison raises `TypeError`
   * (lists, which Python orders element-wise, are treated as incomparable).
   */
  function Greater(a: Value, b: Value): (r: Option<bool>)
    ensures r.Some? <==> Comparable(a, b)
  {
    if IsNumber(a) && IsNumber(b) then Some(NumberOf(a) > NumberOf(b))
    else if a.Str? && b.Str? then Some(StrGreater(a.s, b.s))
    else None
  }

  /** Two comparable values neither of which is greater than the other. */
  predicate SameRank(a: Value, b: Value) {
    (IsNumber(a) && IsNumber(b) && NumberOf(a) == NumberOf(b)) || (a.Str? && b.Str? && a.s == b.s)
  }

  lemma {:induction false} StrGreaterIrreflexive(a: string)
    ensures !StrGreater(a, a)
  {
    if |a| > 0 {
      StrGreaterIrreflexive(a[1..]);
    }
  }

  lemma {:induction false} StrGreaterTransitive(a: string, b: string, c: string)
    requires StrGreater(a, b) && StrGreater(b, c)
    ensures StrGreater(a, c)
  {
    if |c| > 0 && a[0] == b[0] && b[0] == c[0] {
      StrGreaterTransitive(a[1..], b[1..], c[1..]);
    }
  }

  lemma {:induction false} StrGreaterTotal(a: string, b: string)
    ensures a == b || StrGreater(a, b) || StrGreater(b, a)
  {
    if |a| > 0 && |b| > 0 && a[0] == b[0] {
      StrGreaterTotal(a[1..], b[1..]);
      if a[1..] == b[1..] {
        assert a == [a[0]] + a[1..] && b == [b[0]] + b[1..];
      }
    }
  }

  lemma {:induction false} StrGreaterAsymmetric(a: string, b: string)
    requires StrGreater(a, b)
    ensures !StrGreater(b, a)
  {
    if |b| > 0 && a[0] == b[0] {
      StrGreaterAsymmetric(a[1..], b[1..]);
    }
  }

  /** Among comparable values `>` is a strict total order. */
  lemma GreaterOrder(a: Value, b: Value, c: Value)
    requires Comparable(a, b) && Comparable(b, c)
    ensures Comparable(a, c)
    ensures Greater(a, b) == Some(true) && Greater(b, c) == Some(true) ==> Greater(a, c) == Some(true)
    ensures Greater(a, b) == Some(true) ==> Greater(b, a) == Some(false)
    ensures Greater(a, b) == Some(false) ==> Greater(b, a) == Some(true) || SameRank(a, b)
    ensures SameRank(a, b) ==> (Greater(b, c) == Greater(a, c) && Greater(c, b) == Greater(c, a))
    ensures Greater(a, a) == Some(false)
  {
    if a.Str? {
      StrGreaterIrreflexive(a.s);
      StrGreaterTotal(a.s, b.s);
      if StrGreater(a.s, b.s) {
        StrGreaterAsymmetric(a.s, b.s);
        if StrGreater(b.s, c.s) {
          StrGreaterTransitive(a.s, b.s, c.s);
        }
      }
    }
  }

  /**
   * Python `max(xs, key=k)` given the list of keys `keys[j] == k(xs[j])`:
   * the index of the element returned, or `None` where `max` raises
   * (`ValueError` on an empty list, `TypeError` on keys that do not compare).
   * The running best is replaced only by a strictly greater key, so among
   * equal keys the first one wins.
   */
  function MaxIndex(keys: seq<Value>): (r: Option<nat>)
    ensures |keys| == 0 ==> r.None?
    ensures r.Some? ==> r.value < |keys|
  {
    if |keys| == 0 then None else MaxScan(keys, 1, 0)
  }

  function MaxScan(keys: seq<Value>, i: nat, best: nat): (r: Option<nat>)
    requires best < i <= |keys|
    ensures r.Some? ==> r.value < |keys|
    decreases |keys| - i
  {
    if i == |keys| then Some(best)
    else match Greater(keys[i], keys[best])
      case None => None
      case Some(true) => MaxScan(keys, i + 1, i)
      case Some(false) => MaxScan(keys, i + 1, best)
  }

  /** What the scan has established for the keys before `i`. */
  ghost predicate BestSoFar(keys: seq<Value>, i: nat, best: nat)
    requires best < i <= |keys|
  {
    && (forall j :: 0 <= j < i && j != best ==> Greater(keys[j], keys[best]) == Some(false))
    && (forall j :: 0 <= j < best ==> Greater(keys[best], keys[j]) == Some(true))
  }

  lemma {:induction false} MaxScanCorrect(keys: seq<Value>, i: nat, best: nat)
    requires best < i <= |keys|
    requires BestSoFar(keys, i, best)
    ensures var r := MaxScan(keys, i, best);
      r.Some? ==> r.value < |keys| && BestSoFar(keys, |keys|, r.value)
    decreases |keys| - i
  {
    if i < |keys| {
      var g := Greater(keys[i], keys[best]);
      if g == Some(true) {
        forall j | 0 <= j < i
          ensures Greater(keys[j], keys[i]) == Some(false)
          ensures Greater(keys[i], keys[j]) == Some(true)
        {
          if j == best {
            GreaterOrder(keys[i], keys[best], keys[best]);
          } else {
            GreaterOrder(keys[i], keys[best], keys[j]);
            GreaterOrder(keys[j], keys[best], keys[i]);
            GreaterOrder(keys[best], keys[j], keys[i]);
            GreaterOrder(keys[i], keys[j], keys[best]);
          }
        }
        MaxScanCorrect(keys, i + 1, i);
      } else if g == Some(false) {
        MaxScanCorrect(keys, i + 1, best);
      }
    }
  }

  /**
   * When `max` does not raise it returns the first element with the greatest
   * key: no other key is greater than it, and it is greater than every key
   * before it.
   */
  lemma MaxIndexIsFirstMaximum(keys: seq<Value>)
    requires MaxIndex(keys).Some?
    ensures var m := MaxIndex(keys).value;
      && m < |keys|
      && (forall j :: 0 <= j < |keys| && j != m ==> Greater(keys[j], keys[m]) == Some(false))
      && (forall j :: 0 <= j < m ==> Greater(keys[m], keys[j]) == Some(true))
  {
    MaxScanCorrect(keys, 1, 0);
  }

  lemma {:induction false} MaxScanDefined(keys: seq<Value>, i: nat, best: nat)
    requires best < i <= |keys|
    requires best == 0 || Comparable(keys[best], keys[0])
    ensures MaxScan(keys, i, best).Some? <==> forall j :: i <= j < |keys| ==> Comparable(keys[j], keys[0])
    decreases |keys| - i
  {
    if i < |keys| {
      var g := Greater(keys[i], keys[best]);
      if g.Some? {
        var nb := if g == Some(true) then i else best;
        MaxScanDefined(keys, i + 1, nb);
      }
    }
  }

  /**
   * `max` raises exactly on an empty list, or when some key does not compare
   * with the first (a one-element list is returned without any comparison).
   */
  lemma MaxIndexDefined(keys: seq<Value>)
    ensures MaxIndex(keys).Some? <==> |keys| > 0 && forall j :: 1 <= j < |keys| ==> Comparable(keys[j], keys[0])
  {
    if |keys| > 0 {
      MaxScanDefined(keys, 1, 0);
    }
  }
}
