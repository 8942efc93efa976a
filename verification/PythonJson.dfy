/** JSON values as Python compares them, and objects with an exact set of fields. */
module PythonJson {
  import opened Common

  datatype Json =
    | Null
    | Bool(b: bool)
    | Int(i: int)
    | Float(x: real)
    | Str(s: string)
    | List(items: seq<Json>)
    | Obj(fields: map<string, Json>)

  /** `True`, `1` and `1.0` are equal in Python. */
  function Numeric(v: Json): Option<real> {
    match v
    case Bool(b) => Some(if b then 1.0 else 0.0)
    case Int(i) => Some(i as real)
    case Float(x) => Some(x)
    case _ => None
  }

  /** Python's `==`. */
  predicate PyEq(a: Json, b: Json) {
    match (a, b)
    case (Null, Null) => true
    case (Str(x), Str(y)) => x == y
    case (List(x), List(y)) => |x| == |y| && forall i :: 0 <= i < |x| ==> PyEq(x[i], y[i])
    case (Obj(x), Obj(y)) => x.Keys == y.Keys && forall k :: k in x ==> PyEq(x[k], y[k])
    case _ => Numeric(a).Some? && Numeric(a) == Numeric(b)
  }

  lemma {:induction false} PyEqSelf(v: Json)
    ensures PyEq(v, v)
    decreases v
  {
    match v {
      case List(items) =>
        forall i | 0 <= i < |items| ensures PyEq(items[i], items[i]) {
          PyEqSelf(items[i]);
        }
      case Obj(fields) =>
        forall k | k in fields ensures PyEq(fields[k], fields[k]) {
          PyEqSelf(fields[k]);
        }
      case _ =>
    }
  }

  /** Equality is symmetric and transitive, across numbers of different kinds too. */
  lemma {:induction false} PyEqSymmetric(a: Json, b: Json)
    requires PyEq(a, b)
    ensures PyEq(b, a)
    decreases a
  {
    match (a, b)
    case (List(x), List(y)) =>
      forall i | 0 <= i < |y| ensures PyEq(y[i], x[i]) {
        PyEqSymmetric(x[i], y[i]);
      }
    case (Obj(x), Obj(y)) =>
      forall k | k in y ensures PyEq(y[k], x[k]) {
        PyEqSymmetric(x[k], y[k]);
      }
    case _ =>
  }

  lemma {:induction false} PyEqTransitive(a: Json, b: Json, c: Json)
    requires PyEq(a, b) && PyEq(b, c)
    ensures PyEq(a, c)
    decreases a
  {
    match (a, b, c)
    case (List(x), List(y), List(z)) =>
      forall i | 0 <= i < |x| ensures PyEq(x[i], z[i]) {
        PyEqTransitive(x[i], y[i], z[i]);
      }
    case (Obj(x), Obj(y), Obj(z)) =>
      forall k | k in x ensures PyEq(x[k], z[k]) {
        PyEqTransitive(x[k], y[k], z[k]);
      }
    case _ =>
  }

  /** What equals a number in Python: the numbers of the same value, of whatever kind. */
  lemma PyEqNumber(v: Json, i: int)
    ensures PyEq(v, Int(i)) <==>
      v in {Int(i), Float(i as real)} || (i == 1 && v == Bool(true)) || (i == 0 && v == Bool(false))
  {
  }

  /** No number or boolean anywhere inside. */
  ghost predicate Plain(v: Json) {
    match v
    case Null => true
    case Str(_) => true
    case List(items) => forall i :: 0 <= i < |items| ==> Plain(items[i])
    case Obj(fields) => forall k :: k in fields ==> Plain(fields[k])
    case _ => false
  }

  /** Against a value without numbers, Python's equality is identity of the JSON text's meaning. */
  lemma {:induction false} PlainEq(v: Json, e: Json)
    requires Plain(e)
    ensures PyEq(v, e) <==> v == e
    decreases e
  {
    match (v, e)
    case (List(x), List(y)) =>
      if |x| == |y| {
        forall i | 0 <= i < |x| ensures PyEq(x[i], y[i]) <==> x[i] == y[i] {
          PlainEq(x[i], y[i]);
        }
      }
    case (Obj(x), Obj(y)) =>
      if x.Keys == y.Keys {
        forall k | k in x ensures PyEq(x[k], y[k]) <==> x[k] == y[k] {
          PlainEq(x[k], y[k]);
        }
        assert (forall k :: k in x ==> x[k] == y[k]) ==> x == y;
      }
    case _ =>
  }

  // ---------- exact shapes ----------

  /** A dictionary display. */
  function Table(names: seq<string>, values: seq<Json>): (m: map<string, Json>)
    requires |names| == |values|
    ensures m.Keys == Elements(names)
  {
    if names == [] then map[]
    else
      var n := |names| - 1;
      assert names == names[..n] + [names[n]];
      Table(names[..n], values[..n])[names[n] := values[n]]
  }

  function Record(names: seq<string>, values: seq<Json>): Json
    requires |names| == |values|
  {
    Obj(Table(names, values))
  }

  lemma {:induction false} TableAt(names: seq<string>, values: seq<Json>, i: nat)
    requires i < |names| == |values| && NoRepeats(names)
    ensures names[i] in Table(names, values) && Table(names, values)[names[i]] == values[i]
    decreases |names|
  {
    var n := |names| - 1;
    if i < n {
      TableAt(names[..n], values[..n], i);
      assert names[..n][i] == names[i];
    }
  }

  /** `_require_exact_mapping`: the values of the fields, if there are exactly those fields. */
  function Fields(v: Json, names: seq<string>): (r: Option<seq<Json>>)
    ensures r.Some? ==> |r.value| == |names|
  {
    if v.Obj? && v.fields.Keys == Elements(names) then
      Some(seq(|names|, i requires 0 <= i < |names| => assert names[i] in Elements(names); v.fields[names[i]]))
    else None
  }

  /** Reading the fields and building the record are inverse to each other. */
  lemma FieldsExact(v: Json, names: seq<string>, values: seq<Json>)
    requires |names| == |values| && NoRepeats(names)
    ensures Fields(v, names) == Some(values) <==> v == Record(names, values)
  {
    var m := Table(names, values);
    forall i | 0 <= i < |names| ensures names[i] in m && m[names[i]] == values[i] {
      TableAt(names, values, i);
    }
    if Fields(v, names) == Some(values) {
      forall k | k in m ensures v.fields[k] == m[k] {
        var i :| 0 <= i < |names| && names[i] == k;
        assert Fields(v, names).value[i] == v.fields[k];
      }
      assert v.fields == m;
    }
    if v == Record(names, values) {
      forall i | 0 <= i < |names| ensures Fields(v, names).value[i] == values[i] {
      }
      assert Fields(v, names).value == values;
    }
  }

  /** The same, with the last field apart. */
  lemma RecordExact(v: Json, names: seq<string>, front: seq<Json>, last: Json)
    requires |names| == |front| + 1 && NoRepeats(names)
    ensures v == Record(names, front + [last]) <==>
              var f := Fields(v, names);
              f.Some? && f.value[..|front|] == front && f.value[|front|] == last
  {
    FieldsExact(v, names, front + [last]);
    var f := Fields(v, names);
    if f.Some? {
      assert f.value == f.value[..|front|] + [f.value[|front|]];
      assert (front + [last])[..|front|] == front;
    }
  }

  lemma PlainRecord(names: seq<string>, values: seq<Json>)
    requires |names| == |values| && forall i :: 0 <= i < |values| ==> Plain(values[i])
    ensures Plain(Record(names, values))
    decreases |names|
  {
    if names != [] {
      PlainRecord(names[..|names| - 1], values[..|names| - 1]);
    }
  }

}
