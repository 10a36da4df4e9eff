/** The function interner of `rustlox/src/function.rs`: functions kept in a
    vector and found by name through a map, a handle being an index into the
    vector. The thread-local global becomes an explicit `Interner` object;
    the names are handles of the string interner, whose texts are the keys. */
module RustloxFunction {
  import RustloxValue
  import RustloxChunk
  import LoxString

  /** `Handle(usize)`. */
  datatype Handle = Handle(index: nat)

  /** The `Function` of this file: an owned chunk and an interned name. */
  datatype Function = Function(arity: nat, chunk: RustloxChunk.Chunk<RustloxValue.Value>, name: LoxString.Handle)

  class Interner {
    var handleMap: map<string, Handle>
    var functions: seq<Function>
    /** The key under which each stored function was interned. */
    ghost var names: seq<string>

    /** One map entry per stored function, under that function's name, and
        one stored function per map entry. */
    ghost predicate Valid()
      reads this
    {
      |names| == |functions|
      && (forall s :: s in handleMap ==> handleMap[s].index < |functions| && names[handleMap[s].index] == s)
      && (forall i :: 0 <= i < |names| ==> names[i] in handleMap && handleMap[names[i]] == Handle(i))
      && |handleMap| == |functions|
    }

    /** `Interner::new`. */
    constructor ()
      ensures Valid() && handleMap == map[] && functions == []
    {
      handleMap, functions, names := map[], [], [];
    }

    /** `intern`: keyed by the text of the function's name. A name already
        present gives its handle back and the new function is dropped;
        otherwise the function is appended under the next index. */
    method Intern(f: Function, strings: LoxString.Interner) returns (h: Handle)
      requires Valid() && strings.Valid() && f.name.index < |strings.strings|
      modifies this
      ensures Valid()
      ensures var name := LoxString.AsStr(strings, f.name);
        && (name in old(handleMap) ==> h == old(handleMap)[name] && functions == old(functions) && handleMap == old(handleMap))
        && (name !in old(handleMap) ==>
              h == Handle(|old(functions)|) && functions == old(functions) + [f] && handleMap == old(handleMap)[name := h])
      ensures h.index < |functions| && names[h.index] == LoxString.AsStr(strings, f.name)
    {
      var name := LoxString.AsStr(strings, f.name);
      if name in handleMap {
        return handleMap[name];
      }
      h := Handle(|functions|);
      functions := functions + [f];
      names := names + [name];
      handleMap := handleMap[name := h];
    }

    /** `get`: the function stored at the index (out of range panics). */
    function Get(index: nat): (f: Function)
      reads this
      requires Valid() && index < |functions|
      ensures f == functions[index] && names[index] in handleMap && handleMap[names[index]] == Handle(index)
    {
      functions[index]
    }
  }
}
