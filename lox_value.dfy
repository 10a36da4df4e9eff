/** The values of the `src/` interpreter (`src/value.rs`): booleans, numbers
    and nil, with truthiness and equality. */
module LoxValue {
  import opened Base

  datatype Value = Bool(b: bool) | Number(n: F64) | Nil

  /** `Value::is_falsy`. */
  function IsFalsy(v: Value): (r: bool)
    ensures r <==> v == Nil || v == Bool(false)
  {
    match v
    case Nil => true
    case Bool(false) => true
    case _ => false
  }

  /** `PartialEq for Value`: booleans by value, nil equals nil, numbers by
      the host's float equality, and different variants are unequal. */
  function Eq(ops: FloatOps, a: Value, b: Value): bool
  {
    match (a, b)
    case (Bool(x), Bool(y)) => x == y
    case (Nil, Nil) => true
    case (Number(x), Number(y)) => ops.equal(x, y)
    case _ => false
  }

  /** Booleans are equal iff their truth values are, and `nil == nil`. */
  lemma EqBoolNil(ops: FloatOps, x: bool, y: bool)
    ensures Eq(ops, Bool(x), Bool(y)) <==> x == y
    ensures Eq(ops, Nil, Nil)
  {
  }

  /** Values of different variants are never equal. */
  lemma EqDifferentVariants(ops: FloatOps, a: Value, b: Value)
    requires a.Bool? != b.Bool? || a.Number? != b.Number? || a.Nil? != b.Nil?
    ensures !Eq(ops, a, b)
  {
  }

  /** On values other than numbers, `Eq` is Dafny's own equality. */
  lemma EqIsIdentity(ops: FloatOps, a: Value, b: Value)
    requires !a.Number? || !b.Number?
    ensures Eq(ops, a, b) <==> a == b
  {
  }

  /** The falsy values are exactly those equal to `nil` or `false`. */
  lemma FalsyIffEqualsNilOrFalse(ops: FloatOps, v: Value)
    ensures IsFalsy(v) <==> Eq(ops, v, Nil) || Eq(ops, v, Bool(false))
  {
  }
}
