/**
 * `ensure_serializable`: replaces every `bytes` value inside a nested
 * dict/list structure by its decoded text, so that the record can be shown
 * and exported. The UTF-8 decoder is a parameter.
 */
module Serializable {
  import opened JsonValue

  /**
   * `b` has the structure of `a`: the same list lengths and dict keys all the
   * way down, a string wherever `a` holds bytes, and `a`'s own value at every
   * other leaf.
   */
  predicate SameShape(a: Json, b: Json)
  {
    match a
    case JBytes(_) => b.JStr?
    case JList(xs) =>
      && b.JList? && |b.items| == |xs|
      && forall k :: 0 <= k < |xs| ==> SameShape(xs[k], b.items[k])
    case JObj(m) =>
      && b.JObj? && b.fields.Keys == m.Keys
      && forall key :: key in m ==> SameShape(m[key], b.fields[key])
    case _ => b == a
  }

  function EnsureSerializable(j: Json, utf8: seq<bv8> -> string): (r: Json)
    ensures NoBytes(r)
    ensures SameShape(j, r)
  {
    match j
    case JBytes(b) => JStr(utf8(b))
    case JObj(fields) => JObj(map key | key in fields :: EnsureSerializable(fields[key], utf8))
    case JList(items) => JList(seq(|items|, k requires 0 <= k < |items| => EnsureSerializable(items[k], utf8)))
    case _ => j
  }

  /** A value without bytes is returned unchanged. */
  lemma {:induction false} EnsureSerializableIdentity(j: Json, utf8: seq<bv8> -> string)
    requires NoBytes(j)
    ensures EnsureSerializable(j, utf8) == j
  {
    match j
    case JObj(fields) =>
      forall key | key in fields
        ensures EnsureSerializable(fields[key], utf8) == fields[key]
      {
        EnsureSerializableIdentity(fields[key], utf8);
      }
      assert EnsureSerializable(j, utf8).fields == fields;
    case JList(items) =>
      forall k | 0 <= k < |items|
        ensures EnsureSerializable(items[k], utf8) == items[k]
      {
        EnsureSerializableIdentity(items[k], utf8);
      }
      assert EnsureSerializable(j, utf8).items == items;
    case _ =>
  }

  /** Applying `ensure_serializable` twice is the same as applying it once. */
  lemma EnsureSerializableIdempotent(j: Json, utf8: seq<bv8> -> string)
    ensures EnsureSerializable(EnsureSerializable(j, utf8), utf8) == EnsureSerializable(j, utf8)
  {
    EnsureSerializableIdentity(EnsureSerializable(j, utf8), utf8);
  }

  /** In a dict without bytes, only the entry just stored can change. */
  lemma EnsureSerializableUpdate(m: map<string, Json>, key: string, v: Json, utf8: seq<bv8> -> string)
    requires NoBytes(JObj(m))
    ensures EnsureSerializable(JObj(m[key := v]), utf8) == JObj(m[key := EnsureSerializable(v, utf8)])
  {
    var updated := m[key := v];
    forall k | k in updated
      ensures EnsureSerializable(updated[k], utf8) == m[key := EnsureSerializable(v, utf8)][k]
    {
      if k != key {
        EnsureSerializableIdentity(m[k], utf8);
      }
    }
    assert EnsureSerializable(JObj(updated), utf8).fields == m[key := EnsureSerializable(v, utf8)];
  }
}
