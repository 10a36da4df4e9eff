/** The values of rustlox (`rustlox/src/value.rs`): functions, closures,
    upvalues and the `Value` enum with its truthiness and equality. */
module RustloxValue {
  import opened Base
  import RustloxChunk
  import LoxString

  /** A compiled function. `chunk` is shared (`Rc<Chunk>`), so it is an
      object reference; `name` is an interned string. */
  datatype Function = Function(arity: nat, chunk: RustloxChunk.Chunk<Value>, name: LoxString.Handle, upvalueCount: nat)

  /** `Function::get_name`, given the text of the function's name: the
      top-level script has the empty name and is shown as "script". */
  function GetName(nameText: string): (r: string)
    ensures nameText != "" ==> r == nameText
    ensures r != ""
  {
    if nameText == "" then "script" else nameText
  }

  /** The script and a function literally named `script` are shown alike. */
  lemma GetNameCollision()
    ensures GetName("") == GetName("script")
  {
  }

  /** Apart from that one case, different names stay different. */
  lemma GetNameInjective(a: string, b: string)
    requires a != b && {a, b} != {"", "script"}
    ensures GetName(a) != GetName(b)
  {
  }

  /** A closure: the function and the upvalues it captures. */
  datatype Closure = Closure(func: Function, upvalues: seq<Upvalue>, upvalueCount: nat)

  /** `Closure::new`: the upvalue vector starts empty, with room for as many
      upvalues as the function declares. */
  function NewClosure(f: Function): (c: Closure)
    ensures c.func == f && c.upvalues == [] && c.upvalueCount == f.upvalueCount
  {
    Closure(f, [], f.upvalueCount)
  }

  /** Where an upvalue's variable lives: a stack slot while open, or the
      upvalue itself once closed. */
  datatype Location = Stack(index: nat) | Here

  /** An upvalue (shared through `Rc<RefCell<Upvalue>>`): its location, the
      next open upvalue in the VM's list, and the value once closed. */
  class Upvalue {
    var location: Location
    var next: Upvalue?
    var closed: Option<Value>

    /** `Upvalue::new_closed`. */
    constructor NewClosed(value: Value)
      ensures location == Here && next == null && closed == Some(value)
    {
      location, next, closed := Here, null, Some(value);
    }

    /** `Upvalue::new_open`. */
    constructor NewOpen(index: nat, next: Upvalue?)
      ensures location == Stack(index) && this.next == next && closed == None
    {
      location, this.next, closed := Stack(index), next, None;
    }

    /** `get_location`: the stack index, and 0 for a closed upvalue. */
    function GetLocation(): (r: nat)
      reads this
      ensures location.Stack? ==> r == location.index
      ensures location.Here? ==> r == 0
    {
      match location
      case Stack(index) => index
      case Here => 0
    }

    /** `set_location`: a closed upvalue stores the value; an open one moves
        to the new index and keeps `closed` as it was. */
    method SetLocation(index: nat, value: Value)
      modifies this`location, this`closed
      ensures old(location) == Here ==> location == Here && closed == Some(value)
      ensures old(location) != Here ==> location == Stack(index) && closed == old(closed)
      ensures next == old(next)
    {
      if location == Here {
        closed := Some(value);
      } else {
        location := Stack(index);
      }
    }
  }

  /** `Value`. A native function is identified by its address. */
  datatype Value =
    | Bool(b: bool)
    | Number(n: F64)
    | Nil
    | String(handle: LoxString.Handle)
    | FunctionValue(func: Function)
    | Native(address: nat)
    | ClosureValue(closure: Closure)

  /** `Value::is_falsy`. */
  function IsFalsy(v: Value): (r: bool)
    ensures r <==> v.Nil? || (v.Bool? && !v.b)
  {
    match v
    case Nil => true
    case Bool(false) => true
    case _ => false
  }

  /** `PartialEq for Value`: numbers by the host's float equality, strings by
      handle, functions by the identity of their chunk, natives by address;
      every other pair, closures included, is unequal. */
  function Eq(ops: FloatOps, a: Value, b: Value): bool
  {
    match (a, b)
    case (Bool(x), Bool(y)) => x == y
    case (Nil, Nil) => true
    case (Number(x), Number(y)) => ops.equal(x, y)
    case (String(x), String(y)) => x == y
    case (FunctionValue(f), FunctionValue(g)) => f.chunk == g.chunk
    case (Native(x), Native(y)) => x == y
    case _ => false
  }

  /** The variant of a value, as a number. */
  function Variant(v: Value): nat
  {
    match v
    case Bool(_) => 0
    case Number(_) => 1
    case Nil => 2
    case String(_) => 3
    case FunctionValue(_) => 4
    case Native(_) => 5
    case ClosureValue(_) => 6
  }

  /** Values of different variants are never equal. */
  lemma EqSameVariant(ops: FloatOps, a: Value, b: Value)
    ensures Eq(ops, a, b) ==> Variant(a) == Variant(b)
  {
  }

  /** A closure equals nothing, not even itself. */
  lemma ClosureNeverEqual(ops: FloatOps, c: Closure, v: Value)
    ensures !Eq(ops, ClosureValue(c), v) && !Eq(ops, v, ClosureValue(c))
  {
  }

  /** Two function values are equal exactly when they share their chunk,
      whatever their names and arities. */
  lemma FunctionEqByChunk(ops: FloatOps, f: Function, g: Function)
    ensures Eq(ops, FunctionValue(f), FunctionValue(g)) <==> f.chunk == g.chunk
  {
  }

  /** Equality is reflexive on every variant but numbers (which follow the
      host) and closures. */
  lemma EqReflexive(ops: FloatOps, v: Value)
    requires !v.Number? && !v.ClosureValue?
    ensures Eq(ops, v, v)
  {
  }

  /** Equality is symmetric when the host's float equality is. */
  lemma EqSymmetric(ops: FloatOps, a: Value, b: Value)
    requires a.Number? && b.Number? ==> ops.equal(a.n, b.n) == ops.equal(b.n, a.n)
    ensures Eq(ops, a, b) == Eq(ops, b, a)
  {
  }

  /** The falsy values are exactly those equal to `nil` or `false`. */
  lemma FalsyIffEqualsNilOrFalse(ops: FloatOps, v: Value)
    ensures IsFalsy(v) <==> Eq(ops, v, Nil) || Eq(ops, v, Bool(false))
  {
  }
}
