/**
 * The runtime values of the evaluator (src/types/object.rs): the `Object`
 * union, its `inspect` rendering, its derived equality and the shared
 * TRUE / FALSE / NULL constants.
 */
module Objects {
  import opened Wrappers
  import opened Numerals
  import opened Floats

  datatype Object =
    | Integer(n: I64)
    | Float(x: F64)
    | Boolean(b: bool)
    | String(s: string)
    | Null
    | ReturnValue(inner: Object)

  const TRUE: Object := Boolean(true)
  const FALSE: Object := Boolean(false)
  const NULL: Object := Null

  /** `inspect`: the text of a value; a returned value shows as the value itself. */
  function Inspect(floatText: F64 -> string, obj: Object): string {
    match obj
    case Integer(n) => DecimalText(n)
    case Float(x) => floatText(x)
    case Boolean(b) => if b then "true" else "false"
    case String(s) => s
    case Null => "null"
    case ReturnValue(v) => Inspect(floatText, v)
  }

  /** The value under any number of ReturnValue wrappers. */
  function Unwrapped(obj: Object): (v: Object)
    ensures !v.ReturnValue?
  {
    if obj.ReturnValue? then Unwrapped(obj.inner) else obj
  }

  /**
   * The rendering of values: a returned value shows as what it wraps, Null
   * as "null", an integer as its decimal text (which reads back to the
   * integer), a boolean as "true" / "false" and a string as itself.
   */
  lemma {:induction false} InspectRendering(floatText: F64 -> string, obj: Object)
    ensures Inspect(floatText, obj) == Inspect(floatText, Unwrapped(obj))
    ensures obj == Null ==> Inspect(floatText, obj) == "null"
    ensures obj.Integer? ==> ParseDecimal(Inspect(floatText, obj)) == Some(obj.n as int)
    ensures obj.Boolean? ==> (Inspect(floatText, obj) == "true" <==> obj.b)
    ensures obj.Boolean? ==> (Inspect(floatText, obj) == "false" <==> !obj.b)
    ensures obj.String? ==> Inspect(floatText, obj) == obj.s
  {
    if obj.ReturnValue? {
      InspectRendering(floatText, obj.inner);
    } else if obj.Integer? {
      DecimalRoundTrip(obj.n);
    }
  }

  /**
   * The derived `==` on objects: the same variant with equal contents,
   * floats compared as f64 (NaN unequal to itself, -0.0 equal to 0.0), and
   * return values by what they wrap.
   */
  predicate ObjEq(a: Object, b: Object) {
    match (a, b)
    case (Integer(x), Integer(y)) => x == y
    case (Float(x), Float(y)) => Floats.Eq(x, y)
    case (Boolean(x), Boolean(y)) => x == y
    case (String(x), String(y)) => x == y
    case (Null, Null) => true
    case (ReturnValue(x), ReturnValue(y)) => ObjEq(x, y)
    case _ => false
  }

  /** Whether a value contains a float (only those can be unequal to themselves). */
  predicate HoldsFloat(obj: Object) {
    obj.Float? || (obj.ReturnValue? && HoldsFloat(obj.inner))
  }

  /**
   * Values of different variants are never equal, return values compare
   * what they wrap, and without floats the derived equality is identity.
   */
  lemma {:induction false} ObjEqStructural(a: Object, b: Object)
    ensures ObjEq(ReturnValue(a), ReturnValue(b)) <==> ObjEq(a, b)
    ensures ObjEq(a, b) ==>
      ((a.Integer? <==> b.Integer?) && (a.Float? <==> b.Float?) &&
       (a.Boolean? <==> b.Boolean?) && (a.String? <==> b.String?) && (a.Null? <==> b.Null?) &&
       (a.ReturnValue? <==> b.ReturnValue?))
    ensures !HoldsFloat(a) ==> (ObjEq(a, b) <==> a == b)
  {
    if a.ReturnValue? && b.ReturnValue? {
      ObjEqStructural(a.inner, b.inner);
    }
  }

  /** The derived equality is symmetric, floats and return values included. */
  lemma {:induction false} ObjEqSymmetric(a: Object, b: Object)
    ensures ObjEq(a, b) == ObjEq(b, a)
  {
    if a.ReturnValue? && b.ReturnValue? {
      ObjEqSymmetric(a.inner, b.inner);
    }
  }
}
