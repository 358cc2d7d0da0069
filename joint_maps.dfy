/** The joint-position dictionary built from an IK answer:
    `dict(zip(names, positions))`. `zip` stops at the shorter sequence and
    the dictionary keeps, for a repeated name, the angle paired last. */
module JointMaps {

  /** The number of pairs `zip(names, values)` produces. */
  function ZipLength<K, V>(names: seq<K>, values: seq<V>): nat
  {
    if |names| <= |values| then |names| else |values|
  }

  /** Position i is the last of the first n positions that carries its name. */
  ghost predicate LastOccurrence<K>(names: seq<K>, n: int, i: int)
  {
    0 <= i < n <= |names| && forall j :: i < j < n ==> names[j] != names[i]
  }

  /** No name occurs twice. */
  ghost predicate Distinct<K>(names: seq<K>)
  {
    forall i, j :: 0 <= i < j < |names| ==> names[i] != names[j]
  }

  /** The dictionary is built pair by pair, each insertion overwriting the
      earlier entry of its name. Its keys are exactly the zipped names. */
  function DictZip<K(!new), V>(names: seq<K>, values: seq<V>): (m: map<K, V>)
    ensures forall k :: k in m <==> exists i :: 0 <= i < ZipLength(names, values) && names[i] == k
    decreases |names|
  {
    var n := ZipLength(names, values);
    if n == 0 then map[]
    else
      var front, back := names[..n - 1], values[..n - 1];
      assert forall i :: 0 <= i < n - 1 ==> front[i] == names[i];
      DictZip(front, back)[names[n - 1] := values[n - 1]]
  }

  /** Each zipped name maps to the angle at its last zipped position. */
  lemma {:induction false} DictZipAtLast<K(!new), V>(names: seq<K>, values: seq<V>, i: int)
    requires LastOccurrence(names, ZipLength(names, values), i)
    ensures names[i] in DictZip(names, values) && DictZip(names, values)[names[i]] == values[i]
    decreases |names|
  {
    var n := ZipLength(names, values);
    if i < n - 1 {
      var front, back := names[..n - 1], values[..n - 1];
      assert LastOccurrence(front, n - 1, i);
      DictZipAtLast(front, back, i);
      assert names[i] != names[n - 1];
    }
  }

  /** With distinct names and as many angles as names, the dictionary holds
      exactly one entry per name, each with the angle at the same index. */
  lemma {:induction false} DictZipOfDistinct<K(!new), V>(names: seq<K>, values: seq<V>)
    requires |names| == |values|
    requires Distinct(names)
    ensures |DictZip(names, values)| == |names|
    ensures forall i :: 0 <= i < |names| ==> DictZip(names, values)[names[i]] == values[i]
  {
    var n := |names|;
    forall i | 0 <= i < n
      ensures DictZip(names, values)[names[i]] == values[i]
    {
      assert LastOccurrence(names, n, i);
      DictZipAtLast(names, values, i);
    }
    if n > 0 {
      var front, back := names[..n - 1], values[..n - 1];
      assert Distinct(front);
      DictZipOfDistinct(front, back);
      var rest := DictZip(front, back);
      assert forall i :: 0 <= i < n - 1 ==> front[i] != names[n - 1];
      assert names[n - 1] !in rest;
      assert DictZip(names, values) == rest[names[n - 1] := values[n - 1]];
    }
  }

  /** A repeated name keeps the angle paired with its last occurrence. */
  lemma RepeatedNameKeepsLast<K(!new), V>(names: seq<K>, values: seq<V>, i: nat, j: nat)
    requires i < j < |names| && j < |values|
    requires names[i] == names[j]
    requires forall l :: j < l < ZipLength(names, values) ==> names[l] != names[j]
    ensures DictZip(names, values)[names[i]] == values[j]
  {
    assert LastOccurrence(names, ZipLength(names, values), j);
    DictZipAtLast(names, values, j);
  }
}
