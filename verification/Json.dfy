/** JSON documents as Python sees them after `json.loads`, with the few dictionary and equality
    rules of Python that the modelled code relies on. */
module Json {

  datatype Option<+T> = None | Some(value: T)

  datatype Result<+T, +E> = Ok(value: T) | Err(error: E)

  /** A dictionary is its items in insertion order. */
  datatype Value =
    | Null
    | Bool(flag: bool)
    | Int(n: int)
    | Real(x: real)
    | Str(text: string)
    | Arr(items: seq<Value>)
    | Obj(fields: seq<(string, Value)>)

  /** `dict.get(key)` with `None` for an absent key. */
  function Get(fields: seq<(string, Value)>, key: string): Value {
    if fields == [] then Null
    else if fields[0].0 == key then fields[0].1
    else Get(fields[1..], key)
  }

  predicate Has(fields: seq<(string, Value)>, key: string) {
    exists i :: 0 <= i < |fields| && fields[i].0 == key
  }

  /** `bool`, `int` and `float` compare by value: `True == 1 == 1.0`. */
  predicate IsNumber(v: Value) { v.Bool? || v.Int? || v.Real? }

  function NumberOf(v: Value): real
    requires IsNumber(v)
  {
    match v
    case Bool(b) => if b then 1.0 else 0.0
    case Int(n) => n as real
    case Real(x) => x
  }

  /** Python's `==`. */
  predicate PyEq(a: Value, b: Value)
    decreases a, 0
  {
    if IsNumber(a) && IsNumber(b) then NumberOf(a) == NumberOf(b)
    else match (a, b)
      case (Null, Null) => true
      case (Str(s), Str(t)) => s == t
      case (Arr(xs), Arr(ys)) => |xs| == |ys| && forall i :: 0 <= i < |xs| ==> PyEq(xs[i], ys[i])
      case (Obj(xs), Obj(ys)) =>
        |xs| == |ys| && forall i :: 0 <= i < |xs| ==> HasItem(xs[i].0, xs[i].1, ys)
      case _ => false
  }

  predicate HasItem(key: string, v: Value, fields: seq<(string, Value)>)
    decreases v, 1
  {
    exists j :: 0 <= j < |fields| && fields[j].0 == key && PyEq(v, fields[j].1)
  }

  /** An item is looked up under its own key. */
  lemma HasItemExactly(key: string, v: Value, fields: seq<(string, Value)>)
    ensures HasItem(key, v, fields) <==>
              exists i :: 0 <= i < |fields| && fields[i].0 == key && PyEq(v, fields[i].1)
  {
  }

  /** Python's truth value. */
  predicate Truthy(v: Value) {
    match v
    case Null => false
    case Bool(b) => b
    case Int(n) => n != 0
    case Real(x) => x != 0.0
    case Str(s) => s != ""
    case Arr(items) => items != []
    case Obj(fields) => fields != []
  }

  /** Seven values are false, all others are true. */
  lemma FalsyExactly(v: Value)
    ensures !Truthy(v) <==>
              || v == Null || v == Bool(false) || v == Int(0) || v == Real(0.0) || v == Str("") || v == Arr([])
              || v == Obj([])
  {
  }

  /** Text and null, alone or in lists. */
  ghost predicate Textual(v: Value) {
    v == Null || v.Str? || (v.Arr? && forall i :: 0 <= i < |v.items| ==> Textual(v.items[i]))
  }

  /** On text Python's `==` is equality, and no number equals a text. */
  lemma {:induction false} TextsAreEqualExactly(a: Value, b: Value)
    requires Textual(a)
    ensures PyEq(a, b) <==> a == b
    decreases a
  {
    if a.Arr? && b.Arr? && |a.items| == |b.items| {
      forall i | 0 <= i < |a.items| ensures PyEq(a.items[i], b.items[i]) <==> a.items[i] == b.items[i] {
        TextsAreEqualExactly(a.items[i], b.items[i]);
      }
      assert a.items == b.items <==> forall i :: 0 <= i < |a.items| ==> a.items[i] == b.items[i];
    }
  }

  function Lookup<T>(m: map<string, T>, key: string): Option<T> { if key in m then Some(m[key]) else None }
}
