/** The values the front end receives from `JSON.parse`, from form fields and from
    the REST envelope, and the few JavaScript operations the modelled code applies
    to them: truthiness, `a || b`, property reads and conversion to a string.
    Numbers are integers here: no code that is modelled computes with fractions. */
module JsValue {
  import opened Text

  datatype Option<+T> = None | Some(value: T) {
    function GetOr(default: T): T {
      match this
      case Some(v) => v
      case None => default
    }
  }

  datatype Value =
    | Undefined
    | Null
    | Bool(b: bool)
    | Num(n: int)
    | Str(s: string)
    | Arr(items: seq<Value>)
    | Obj(fields: seq<Field>)

  /** One own property of an object, in insertion order. */
  datatype Field = Field(key: string, val: Value)

  /** JavaScript's ToBoolean: `false`, `0`, `''`, `null` and `undefined` are falsy. */
  predicate Truthy(v: Value) {
    match v
    case Undefined => false
    case Null => false
    case Bool(b) => b
    case Num(n) => n != 0
    case Str(s) => s != ""
    case Arr(_) => true
    case Obj(_) => true
  }

  /** `xs.filter(x => flag(x)).length`: how many elements carry a truthy flag. None do
      exactly when every flag is falsy, and all do exactly when every flag is truthy. */
  function CountTruthy<T>(xs: seq<T>, flag: T -> Value): (n: nat)
    ensures n <= |xs|
    ensures n == 0 <==> forall i :: 0 <= i < |xs| ==> !Truthy(flag(xs[i]))
    ensures n == |xs| <==> forall i :: 0 <= i < |xs| ==> Truthy(flag(xs[i]))
  {
    if xs == [] then 0
    else
      var init := xs[..|xs| - 1];
      var k := CountTruthy(init, flag);
      assert forall i :: 0 <= i < |init| ==> init[i] == xs[i];
      k + (if Truthy(flag(xs[|xs| - 1])) then 1 else 0)
  }

  /** `a || b` */
  function Or(a: Value, b: Value): Value {
    if Truthy(a) then a else b
  }

  predicate IsNullish(v: Value) {
    v == Undefined || v == Null
  }

  /** `typeof v === 'object' && v !== null && !Array.isArray(v)` */
  predicate IsPlainObject(v: Value) {
    v.Obj?
  }

  /** The value of the last property named `key` (what `JSON.parse` keeps when a key repeats). */
  function Lookup(fields: seq<Field>, key: string): Value {
    if fields == [] then Undefined
    else if fields[|fields| - 1].key == key then fields[|fields| - 1].val
    else Lookup(fields[..|fields| - 1], key)
  }

  /** `key in obj` for an own property. */
  predicate HasKey(fields: seq<Field>, key: string) {
    fields != [] && (fields[|fields| - 1].key == key || HasKey(fields[..|fields| - 1], key))
  }

  /** `v.key` on a value that is not `null` or `undefined` (those throw a TypeError, which
      callers handle themselves). Arrays, strings, numbers and booleans have none of the
      property names read by the modelled code. */
  function Get(v: Value, key: string): Value {
    if v.Obj? then Lookup(v.fields, key) else Undefined
  }

  /** Position `i` holds the last property named `key`. */
  predicate LastAt(fields: seq<Field>, key: string, i: int) {
    0 <= i < |fields| && fields[i].key == key && forall j :: i < j < |fields| ==> fields[j].key != key
  }

  /** A property is present exactly when some position holds its name. */
  lemma {:induction false} HasKeyAt(fields: seq<Field>, key: string)
    ensures HasKey(fields, key) <==> exists i :: 0 <= i < |fields| && fields[i].key == key
  {
    if fields != [] {
      var init := fields[..|fields| - 1];
      HasKeyAt(init, key);
      if HasKey(init, key) {
        var i :| 0 <= i < |init| && init[i].key == key;
        assert fields[i] == init[i];
      }
      if exists i :: 0 <= i < |fields| && fields[i].key == key {
        var i :| 0 <= i < |fields| && fields[i].key == key;
        if i < |init| {
          assert init[i] == fields[i];
        }
      }
    }
  }

  /** A property that is absent reads as `undefined`, and one that is present reads as
      the value its last occurrence holds. */
  lemma {:induction false} LookupFindsLast(fields: seq<Field>, key: string)
    ensures !HasKey(fields, key) ==> Lookup(fields, key) == Undefined
    ensures HasKey(fields, key) ==> exists i :: LastAt(fields, key, i) && Lookup(fields, key) == fields[i].val
  {
    if fields != [] {
      var init := fields[..|fields| - 1];
      LookupFindsLast(init, key);
      if fields[|fields| - 1].key != key && HasKey(fields, key) {
        var i :| LastAt(init, key, i) && Lookup(init, key) == init[i].val;
        assert fields[i] == init[i];
        assert LastAt(fields, key, i);
      } else if fields[|fields| - 1].key == key {
        assert LastAt(fields, key, |fields| - 1);
      }
    }
  }

  /** Every property named `key` now holds `v`; keys and their order are kept. */
  function ReplaceField(fields: seq<Field>, key: string, v: Value): (r: seq<Field>)
    ensures |r| == |fields|
    ensures forall i :: 0 <= i < |fields| ==> r[i].key == fields[i].key
    ensures forall k :: HasKey(r, k) <==> HasKey(fields, k)
    ensures HasKey(fields, key) ==> Lookup(r, key) == v
    ensures forall k :: k != key ==> Lookup(r, k) == Lookup(fields, k)
  {
    if fields == [] then []
    else
      var init := fields[..|fields| - 1];
      var last := fields[|fields| - 1];
      var r := ReplaceField(init, key, v) + [if last.key == key then Field(key, v) else last];
      assert r[..|r| - 1] == ReplaceField(init, key, v);
      r
  }

  /** Reading a property of a list with one more property in front: a later occurrence
      wins over the first one. */
  lemma {:induction false} LookupCons(f: Field, rest: seq<Field>, k: string)
    ensures Lookup([f] + rest, k) == if HasKey(rest, k) then Lookup(rest, k) else if f.key == k then f.val else Undefined
    ensures HasKey([f] + rest, k) <==> f.key == k || HasKey(rest, k)
  {
    var s := [f] + rest;
    if rest == [] {
      assert s[..0] == [];
    } else {
      var init := rest[..|rest| - 1];
      LookupCons(f, init, k);
      assert s[..|s| - 1] == [f] + init;
      LookupFindsLast(init, k);
    }
  }

  /** The properties of `{...{fields}, [key]: v}`: the first property named `key` and
      every later one take `v` where they stand; without one, the property is appended. */
  function SetField(fields: seq<Field>, key: string, v: Value): (r: seq<Field>)
    ensures Lookup(r, key) == v
    ensures forall k :: k != key ==> Lookup(r, k) == Lookup(fields, k)
    ensures forall k :: HasKey(r, k) <==> k == key || HasKey(fields, k)
  {
    if fields == [] then
      assert [Field(key, v)][..0] == [];
      [Field(key, v)]
    else
      var rest := if fields[0].key == key then ReplaceField(fields[1..], key, v) else SetField(fields[1..], key, v);
      var r := [if fields[0].key == key then Field(key, v) else fields[0]] + rest;
      assert fields == [fields[0]] + fields[1..];
      forall k ensures Lookup(r, k) == (if k == key then v else Lookup(fields, k)) && (HasKey(r, k) <==> k == key || HasKey(fields, k)) {
        LookupCons(r[0], rest, k);
        LookupCons(fields[0], fields[1..], k);
        LookupFindsLast(fields[1..], k);
      }
      r
  }

  /** `{...target, [key]: v}`: an existing property is overwritten where it stands, a new
      one is appended. Spreading `null` or `undefined` contributes no property. */
  function Assign(target: Value, key: string, v: Value): (r: Value)
    ensures r.Obj?
    ensures Get(r, key) == v
    ensures forall k :: k != key ==> Get(r, k) == Get(target, k)
    ensures forall k :: HasKey(r.fields, k) <==> k == key || (target.Obj? && HasKey(target.fields, k))
  {
    Obj(SetField(if target.Obj? then target.fields else [], key, v))
  }

  /** The properties other than `key`, in their order. */
  function RemoveFields(fields: seq<Field>, key: string): (r: seq<Field>)
    ensures !HasKey(r, key)
    ensures forall k :: k != key ==> Lookup(r, k) == Lookup(fields, k)
    ensures forall k :: k != key ==> (HasKey(r, k) <==> HasKey(fields, k))
  {
    if fields == [] then []
    else
      var init := fields[..|fields| - 1];
      var last := fields[|fields| - 1];
      var rest := RemoveFields(init, key);
      if last.key == key then rest
      else
        assert (rest + [last])[..|rest|] == rest;
        rest + [last]
  }

  /** `obj[key] = v` on an object: the statement form of `Assign`, for code that builds an
      object property by property. */
  method SetProperty(obj: Value, key: string, v: Value) returns (r: Value)
    requires obj.Obj?
    ensures r.Obj?
    ensures Get(r, key) == v
    ensures forall k :: k != key ==> Get(r, k) == Get(obj, k)
    ensures forall k :: HasKey(r.fields, k) <==> k == key || HasKey(obj.fields, k)
  {
    r := Assign(obj, key, v);
  }

  /** `delete obj[key]` on an object: the property is gone and every other one is kept. */
  method DeleteProperty(obj: Value, key: string) returns (r: Value)
    requires obj.Obj?
    ensures r.Obj? && !HasKey(r.fields, key)
    ensures Get(r, key) == Undefined
    ensures forall k :: k != key ==> Get(r, k) == Get(obj, k)
    ensures forall k :: k != key ==> (HasKey(r.fields, k) <==> HasKey(obj.fields, k))
  {
    r := Obj(RemoveFields(obj.fields, key));
    LookupFindsLast(r.fields, key);
  }

  /** `String(v)`, also what a template literal `${v}` produces. */
  function ToJsString(v: Value): string
    decreases v, 1
  {
    match v
    case Undefined => "undefined"
    case Null => "null"
    case Bool(b) => if b then "true" else "false"
    case Num(n) => IntToString(n)
    case Str(s) => s
    case Arr(items) => JoinItems(items)
    case Obj(_) => "[object Object]"
  }

  /** `String(v)` hands a string back unchanged and prints a number as its decimal digits,
      after a '-' when it is negative; the digits read back as the number. */
  lemma ToJsStringPrimitives(v: Value)
    ensures v.Str? ==> ToJsString(v) == v.s
    ensures v.Num? && v.n >= 0 ==> DecimalValue(ToJsString(v)) == v.n
    ensures v.Num? && v.n < 0 ==> ToJsString(v)[0] == '-' && DecimalValue(ToJsString(v)[1..]) == -v.n
  {
    if v.Num? {
      if v.n >= 0 {
        NatToStringRoundTrip(v.n);
      } else {
        NatToStringRoundTrip(-v.n);
        assert ToJsString(v)[1..] == NatToString(-v.n);
      }
    }
  }

  /** `Array.prototype.join(',')`, which writes `null` and `undefined` elements as ''. */
  function JoinItems(items: seq<Value>): string
    decreases items, 0
  {
    if items == [] then ""
    else
      var first := if IsNullish(items[0]) then "" else ToJsString(items[0]);
      if |items| == 1 then first else first + "," + JoinItems(items[1..])
  }

  /** `a === b` where neither side is an object or array; object identity is not modelled,
      so two objects or arrays never compare equal. */
  predicate StrictEquals(a: Value, b: Value) {
    a == b && !a.Arr? && !a.Obj?
  }
}
