/** The string interner of `src/string.rs`: a map from text to handle and a
    vector of the interned texts, where a handle is an index into the vector.
    The thread-local global interner becomes an explicit `Interner` object
    passed to the operations that use it. */
module LoxString {

  /** `Handle(usize)`. */
  datatype Handle = Handle(index: nat)

  class Interner {
    /** The handles of the map, kept as their indices. */
    var handleMap: map<string, nat>
    var strings: seq<string>

    /** The map and the vector describe the same bijection between the
        interned texts and the indices `0 .. |strings|`. */
    ghost predicate Valid()
      reads this
    {
      (forall s :: s in handleMap ==> handleMap[s] < |strings| && strings[handleMap[s]] == s)
      && (forall i :: 0 <= i < |strings| ==> strings[i] in handleMap && handleMap[strings[i]] == i)
    }

    /** `Interner::new` (the `Default` of both fields). */
    constructor ()
      ensures Valid() && handleMap == map[] && strings == []
    {
      handleMap, strings := map[], [];
    }

    /** `intern`: the existing handle when the text is known, otherwise the
        next index, with the text appended and recorded. */
    method Intern(s: string) returns (h: Handle)
      requires Valid()
      modifies this
      ensures Valid()
      ensures h.index < |strings| && strings[h.index] == s
      ensures s in old(handleMap) ==> h.index == old(handleMap)[s] && strings == old(strings) && handleMap == old(handleMap)
      ensures s !in old(handleMap) ==>
        h == Handle(|old(strings)|) && strings == old(strings) + [s] && handleMap == old(handleMap)[s := h.index]
    {
      if s in handleMap {
        return Handle(handleMap[s]);
      }
      h := Handle(|strings|);
      strings := strings + [s];
      handleMap := handleMap[s := h.index];
    }

    /** `get`: indexing the vector, which panics out of range. */
    function Get(index: nat): (s: string)
      reads this
      requires Valid() && index < |strings|
      ensures s in handleMap && handleMap[s] == index
    {
      strings[index]
    }
  }

  /** Two different texts never share a handle. */
  lemma DistinctHandles(it: Interner, s: string, t: string)
    requires it.Valid() && s in it.handleMap && t in it.handleMap
    ensures it.handleMap[s] == it.handleMap[t] <==> s == t
  {
  }

  /** `Handle::from_str`: interning in the given interner. */
  method FromStr(it: Interner, s: string) returns (h: Handle)
    requires it.Valid()
    modifies it
    ensures it.Valid() && h.index < |it.strings| && |old(it.strings)| <= |it.strings|
    ensures AsStr(it, h) == s
    ensures it.strings[..|old(it.strings)|] == old(it.strings)
  {
    h := it.Intern(s);
  }

  /** `Handle::as_str`. */
  function AsStr(it: Interner, h: Handle): (s: string)
    reads it
    requires it.Valid() && h.index < |it.strings|
    ensures FromStrKnown(it, s, h)
  {
    it.Get(h.index)
  }

  /** Interning `s` in `it` would change nothing and give back `h`. */
  ghost predicate FromStrKnown(it: Interner, s: string, h: Handle)
    reads it
  {
    s in it.handleMap && it.handleMap[s] == h.index
  }

  /** `&a + &b`: interns the concatenation of the two texts. */
  method Add(it: Interner, a: Handle, b: Handle) returns (h: Handle)
    requires it.Valid() && a.index < |it.strings| && b.index < |it.strings|
    modifies it
    ensures it.Valid() && h.index < |it.strings| && |old(it.strings)| <= |it.strings|
    ensures AsStr(it, h) == old(AsStr(it, a)) + old(AsStr(it, b))
    ensures it.strings[..|old(it.strings)|] == old(it.strings)
  {
    var s := AsStr(it, a) + AsStr(it, b);
    h := FromStr(it, s);
  }
}
