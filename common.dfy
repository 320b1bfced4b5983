/** Small vocabulary shared by every module of the model: optional values,
    the fixed-width integer types the game server uses, globally unique ids,
    and the "iteration order of a dictionary" that several operations take
    as an input because the server's dictionaries do not promise one. */
module Common {

  datatype Option<+T> = None | Some(value: T)

  /** The outcome of an operation that can fail with an error of type `E`. */
  datatype Result<+T, +E> = Ok(value: T) | Err(error: E)

  /** C# `short`: a signed 16-bit integer. */
  type short = x: int | -0x8000 <= x < 0x8000

  /** C# `byte`: an unsigned 8-bit integer. */
  type byte = x: int | 0 <= x < 0x100

  /** A `System.Guid`; only equality between them matters here. */
  datatype Guid = Guid(bits: nat)

  /** The C# cast `(short) x`, which keeps the low 16 bits of `x` as a
      two's-complement value. */
  function ToShort(x: int): (r: short)
    ensures r == x <==> -0x8000 <= x < 0x8000
    ensures (r - x) % 0x1_0000 == 0
  {
    var low := x % 0x1_0000;
    if low < 0x8000 then low else low - 0x1_0000
  }

  /** `order` lists every key of `keys` exactly once: one admissible
      iteration order of a dictionary whose key set is `keys`. */
  predicate IsEnumeration(order: seq<int>, keys: set<int>)
  {
    && (forall i :: 0 <= i < |order| ==> order[i] in keys)
    && (forall k :: k in keys ==> k in order)
    && (forall i, j :: 0 <= i < j < |order| ==> order[i] != order[j])
  }

  /** The values of `m` visited in the iteration order `order`. */
  function InOrder<V>(m: map<int, V>, order: seq<int>): (vs: seq<V>)
    requires forall i :: 0 <= i < |order| ==> order[i] in m
    ensures |vs| == |order|
    ensures forall i :: 0 <= i < |order| ==> vs[i] == m[order[i]]
  {
    seq(|order|, i requires 0 <= i < |order| => m[order[i]])
  }

  /** `order` with the key `k` taken out, the rest in the same order. */
  function RemoveKey(order: seq<int>, k: int): (r: seq<int>)
    ensures forall x :: x in r <==> x in order && x != k
    ensures |r| <= |order|
  {
    if order == [] then []
    else if order[0] == k then RemoveKey(order[1..], k)
    else [order[0]] + RemoveKey(order[1..], k)
  }

  /** Taking a key out of an enumeration of a key set enumerates the key set
      without that key. */
  lemma {:induction false} RemoveKeyEnumerates(order: seq<int>, keys: set<int>, k: int)
    requires IsEnumeration(order, keys)
    ensures IsEnumeration(RemoveKey(order, k), keys - {k})
  {
    if order != [] {
      var rest := order[1..];
      assert IsEnumeration(rest, keys - {order[0]}) by {
        forall x | x in keys - {order[0]} ensures x in rest {
          var i :| 0 <= i < |order| && order[i] == x;
          assert i != 0;
          assert rest[i - 1] == x;
        }
        forall i | 0 <= i < |rest| ensures rest[i] in keys - {order[0]} {
          assert rest[i] == order[i + 1];
        }
      }
      RemoveKeyEnumerates(rest, keys - {order[0]}, k);
      var r := RemoveKey(order, k);
      if order[0] != k {
        assert r == [order[0]] + RemoveKey(rest, k);
        forall i, j | 0 <= i < j < |r| ensures r[i] != r[j] {
          if i == 0 {
            assert r[j] in RemoveKey(rest, k);
          }
        }
      } else {
        assert keys - {order[0]} - {k} == keys - {k};
      }
    }
  }
}
