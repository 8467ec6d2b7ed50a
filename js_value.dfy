/** The loosely typed data the scraper walks: parsed JSON, JavaScript's `undefined`,
    and the three ways the code reads a path through such data — `a.b.c`, which
    throws a TypeError when an intermediate value is `null` or `undefined`; `a?.b?.c`,
    which yields `undefined` instead; and the coercions applied to the leaves
    (truthiness, string concatenation, unary `+`). */
module JsValue {
  import opened Wrappers
  import opened Text

  /** A value produced by `JSON.parse` (numbers restricted to integers). */
  datatype Json =
    | Null
    | Bool(b: bool)
    | Number(n: int)
    | Str(s: string)
    | Arr(items: seq<Json>)
    | Obj(fields: map<string, Json>)

  /** A JavaScript value as the scraper sees it: JSON data or `undefined`. */
  datatype Js = Undefined | Value(json: Json)

  /** One property access: `.name` or `[i]`. */
  datatype Step = Key(name: string) | Index(i: nat)

  predicate Nullish(v: Js) {
    v.Undefined? || v.json.Null?
  }

  /** JavaScript truthiness (`if (v)`, `v || ''`, `!v`). */
  predicate Truthy(v: Js) {
    match v
    case Undefined => false
    case Value(j) =>
      match j
      case Null => false
      case Bool(b) => b
      case Number(n) => n != 0
      case Str(s) => s != []
      case Arr(_) => true
      case Obj(_) => true
  }

  /** `o[step]` on a value that is neither `null` nor `undefined`: a missing
      property is `undefined`, never an error. Array indices, numeric keys of
      objects and single characters of strings are all reachable by `[i]`. */
  function Property(o: Json, step: Step): (r: Js)
    ensures r.Value? ==> o.Obj? || o.Arr? || o.Str?
  {
    match (o, step)
    case (Obj(m), Key(k)) => if k in m then Value(m[k]) else Undefined
    case (Obj(m), Index(i)) =>
      var k := NatToDecimal(i);
      if k in m then Value(m[k]) else Undefined
    case (Arr(a), Index(i)) => if i < |a| then Value(a[i]) else Undefined
    case (Str(s), Index(i)) => if i < |s| then Value(Str([s[i]])) else Undefined
    case _ => Undefined
  }

  /** `v.step`: `None` stands for the TypeError thrown on `null` or `undefined`. */
  function Member(v: Js, step: Step): (r: Option<Js>)
    ensures r.None? <==> Nullish(v)
  {
    if Nullish(v) then None else Some(Property(v.json, step))
  }

  /** `v.p0.p1...`: plain property accesses, any of which may throw. */
  function Strict(v: Js, path: seq<Step>): Option<Js>
    decreases path
  {
    if path == [] then Some(v)
    else
      match Member(v, path[0])
      case None => None
      case Some(w) => Strict(w, path[1..])
  }

  /** `v?.p0?.p1...`: optional chaining, which yields `undefined` as soon as a
      value on the way is `null` or `undefined`. */
  function Optional(v: Js, path: seq<Step>): Js
    decreases path
  {
    if path == [] then v
    else if Nullish(v) then Undefined
    else Optional(Property(v.json, path[0]), path[1..])
  }

  /** The string a string method such as `.replace` can be called on; any other
      value makes the call throw. */
  function AsString(v: Js): (r: Option<string>)
    ensures r.Some? <==> v.Value? && v.json.Str?
  {
    if v.Value? && v.json.Str? then Some(v.json.s) else None
  }

  /** `"" + v`: JavaScript's conversion of a value to a string. */
  function ToJsString(v: Js): string {
    match v
    case Undefined => "undefined"
    case Value(j) => JsonToString(j)
  }

  function JsonToString(j: Json): string {
    match j
    case Null => "null"
    case Bool(b) => if b then "true" else "false"
    case Number(n) => if n < 0 then "-" + NatToDecimal(-n) else NatToDecimal(n)
    case Str(s) => s
    case Arr(items) =>
      // Array.prototype.join: null elements print as the empty string
      Join(seq(|items|, i requires 0 <= i < |items| =>
             if items[i].Null? then "" else JsonToString(items[i])), ",")
    case Obj(_) => "[object Object]"
  }

  function Join(parts: seq<string>, sep: string): string {
    if parts == [] then ""
    else if |parts| == 1 then parts[0]
    else parts[0] + sep + Join(parts[1..], sep)
  }

  /** A JavaScript number, restricted to integers and NaN. */
  datatype Num = NaN | Finite(value: int)

  /** Unary `+` on a string. */
  function StringToNumber(s: string): (r: Num)
    ensures AllDigits(s) ==> r == Finite(DecimalValue(s))
  {
    if AllDigits(s) then Finite(DecimalValue(s)) else NaN
  }

  /** Unary `+` on a value. */
  function ToNumber(v: Js): Num {
    match v
    case Undefined => NaN
    case Value(j) =>
      match j
      case Null => Finite(0)
      case Bool(b) => Finite(if b then 1 else 0)
      case Number(n) => Finite(n)
      case Str(s) => StringToNumber(s)
      case Arr(_) => StringToNumber(JsonToString(j))
      case Obj(_) => NaN
  }

  /** `x * k` on numbers: NaN stays NaN. */
  function Times(x: Num, k: int): Num {
    match x
    case NaN => NaN
    case Finite(n) => Finite(n * k)
  }

  /** Reading `v.p.q` equals reading `v.p` and then `.q` from what it gave. */
  lemma {:induction false} StrictAppend(v: Js, p: seq<Step>, q: seq<Step>)
    ensures Strict(v, p + q) ==
      match Strict(v, p)
      case None => None
      case Some(w) => Strict(w, q)
    decreases p
  {
    if p == [] {
      assert p + q == q;
    } else {
      assert (p + q)[0] == p[0];
      assert (p + q)[1..] == p[1..] + q;
      if !Nullish(v) {
        StrictAppend(Property(v.json, p[0]), p[1..], q);
      }
    }
  }

  /** When `v.p.q` does not throw, `v?.p?.q` reads the same value. */
  lemma {:induction false} StrictAgreesWithOptional(v: Js, p: seq<Step>)
    requires Strict(v, p).Some?
    ensures Optional(v, p) == Strict(v, p).value
    decreases p
  {
    if p != [] {
      StrictAgreesWithOptional(Property(v.json, p[0]), p[1..]);
    }
  }

  /** When `v?.p?.q` is neither `null` nor `undefined`, every value on the way
      was an object, so `v.p.q` does not throw and reads the same value. */
  lemma {:induction false} OptionalPresentIsStrict(v: Js, p: seq<Step>)
    requires !Nullish(Optional(v, p))
    ensures Strict(v, p) == Some(Optional(v, p))
    decreases p
  {
    if p != [] {
      OptionalPresentIsStrict(Property(v.json, p[0]), p[1..]);
    }
  }

  /** `v.p0...pn` throws exactly when the value read before some step is `null`
      or `undefined`. */
  lemma {:induction false} StrictFailsIff(v: Js, p: seq<Step>)
    ensures Strict(v, p).None? <==>
            exists k :: 0 <= k < |p| && Nullish(Optional(v, p[..k]))
    decreases p
  {
    if p == [] {
    } else if Nullish(v) {
      assert p[..0] == [];
    } else {
      var w := Property(v.json, p[0]);
      StrictFailsIff(w, p[1..]);
      if Strict(v, p).None? {
        var k :| 0 <= k < |p[1..]| && Nullish(Optional(w, p[1..][..k]));
        assert p[..k + 1][1..] == p[1..][..k];
        assert Nullish(Optional(v, p[..k + 1]));
      }
      if exists k :: 0 <= k < |p| && Nullish(Optional(v, p[..k])) {
        var k :| 0 <= k < |p| && Nullish(Optional(v, p[..k]));
        assert k != 0;
        assert p[..k][1..] == p[1..][..k - 1];
        assert Nullish(Optional(w, p[1..][..k - 1]));
      }
    }
  }
}
