/** Small shared vocabulary: Java's nullable references as `Option`, the
    unsigned byte and the 32-bit `int` of the JVM. */
module Base {

  /** A Java reference that may be `null`. */
  datatype Option<+T> = None | Some(value: T) {
    predicate IsFailure() { None? }

    function PropagateFailure<U>(): Option<U>
      requires None?
    {
      None
    }

    function Extract(): T
      requires Some?
    {
      value
    }
  }

  /** One octet as Base64 sees it (Java's signed `byte` read as 0..255). */
  type byte = x: int | 0 <= x < 256

  /** Java's primitive `int`. */
  type int32 = x: int | -0x8000_0000 <= x < 0x8000_0000

  /** The elements of a sequence as a set. */
  function Elements<T>(s: seq<T>): (r: set<T>)
    ensures forall i :: 0 <= i < |s| ==> s[i] in r
    ensures forall x :: x in r ==> exists i :: 0 <= i < |s| && s[i] == x
  {
    set x | x in s
  }

  /** No element occurs twice. */
  predicate Distinct<T(==)>(s: seq<T>) {
    forall i, j :: 0 <= i < j < |s| ==> s[i] != s[j]
  }

  /** The keys of a list of entries, in order. */
  function KeysOf<K, V>(entries: seq<(K, V)>): (ks: seq<K>)
    ensures |ks| == |entries|
    ensures forall i :: 0 <= i < |entries| ==> ks[i] == entries[i].0
  {
    seq(|entries|, i requires 0 <= i < |entries| => entries[i].0)
  }

  /** The map a list of entries denotes, as a sequence of `put` calls. */
  function MapOf<K, V>(entries: seq<(K, V)>): (m: map<K, V>)
    ensures m.Keys == Elements(KeysOf(entries))
  {
    if |entries| == 0 then map[]
    else MapOf(entries[..|entries| - 1])[entries[|entries| - 1].0 := entries[|entries| - 1].1]
  }

  /** With no key repeated, every entry can be looked up again. */
  lemma {:induction false} MapOfLookup<K, V>(entries: seq<(K, V)>, i: nat)
    requires Distinct(KeysOf(entries)) && i < |entries|
    ensures entries[i].0 in MapOf(entries) && MapOf(entries)[entries[i].0] == entries[i].1
    decreases |entries|
  {
    var n := |entries| - 1;
    if i < n {
      var front := entries[..n];
      assert KeysOf(front) == KeysOf(entries)[..n];
      assert front[i] == entries[i];
      assert entries[i].0 != entries[n].0;
      MapOfLookup(front, i);
    }
  }
}
