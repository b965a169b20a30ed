// Sequence helpers shared by both copies of the sound manager: the optional
// value that stands for a nullable reference, the identity-based removal of
// `List<T>.Remove`, and the dictionary-filling loops of `Awake`/`Start`.

module Lists {

  /** A nullable reference: `None` is C#'s `null`. */
  datatype Option<T> = None | Some(value: T)

  /** The set holding the value of `o`, if any. */
  function OptSet<T>(o: Option<T>): set<T>
  {
    if o.Some? then {o.value} else {}
  }

  /** No element occurs twice. */
  ghost predicate Distinct<T(!new)>(s: seq<T>)
  {
    forall x :: multiset(s)[x] <= 1
  }

  lemma DistinctTail<T(!new)>(s: seq<T>)
    requires Distinct(s) && s != []
    ensures Distinct(s[1..]) && s[0] !in s[1..]
  {
    assert s == [s[0]] + s[1..];
    forall x ensures multiset(s[1..])[x] <= 1 {
      assert multiset(s)[x] <= 1;
    }
    assert multiset(s)[s[0]] <= 1;
    assert multiset(s)[s[0]] == 1 + multiset(s[1..])[s[0]];
  }

  lemma DistinctSnoc<T(!new)>(s: seq<T>, x: T)
    requires Distinct(s) && x !in s
    ensures Distinct(s + [x])
  {
    forall y ensures multiset(s + [x])[y] <= 1 {
      assert multiset(s)[y] <= 1;
    }
  }

  /** Taking `x` out of a set and putting it back is the same as adding it. */
  lemma Readded<T>(s: set<T>, x: T)
    ensures (s - {x}) + {x} == s + {x}
  {
  }

  function Last<T>(s: seq<T>): T
    requires s != []
  {
    s[|s| - 1]
  }

  /** Position of the first occurrence of `x` in `s`, or `|s|` when there is none. */
  function IndexOf<T(==)>(s: seq<T>, x: T): (i: nat)
    ensures i <= |s|
    ensures i < |s| <==> x in s
    ensures i < |s| ==> s[i] == x
    ensures x !in s[..i]
  {
    if s == [] then 0
    else if s[0] == x then 0
    else
      assert s[1..][..IndexOf(s[1..], x)] == s[..IndexOf(s[1..], x) + 1][1..];
      1 + IndexOf(s[1..], x)
  }

  /** `List<T>.Remove(x)`: deletes the first occurrence of `x`, wherever it
      sits, and keeps the others in order; an absent `x` leaves `s` as it is. */
  function Remove<T(==)>(s: seq<T>, x: T): (r: seq<T>)
    ensures x !in s ==> r == s
    ensures x in s ==> |r| == |s| - 1 && r == s[..IndexOf(s, x)] + s[IndexOf(s, x) + 1..]
    ensures multiset(r) == multiset(s) - multiset{x}
    ensures forall y :: y in r ==> y in s
  {
    var i := IndexOf(s, x);
    if i == |s| then s
    else
      assert s == s[..i] + [s[i]] + s[i + 1..];
      s[..i] + s[i + 1..]
  }

  /** Removal by identity affects no element other than `x`, and removes `x`
      entirely from a sequence without duplicates. */
  lemma RemoveMembership<T(!new)>(s: seq<T>, x: T, y: T)
    ensures y != x ==> (y in Remove(s, x) <==> y in s)
    ensures Distinct(s) ==> x !in Remove(s, x) && Distinct(Remove(s, x))
  {
    var r := Remove(s, x);
    assert multiset(r) == multiset(s) - multiset{x};
    assert y in r <==> multiset(r)[y] > 0;
    assert x in r <==> multiset(r)[x] > 0;
    if Distinct(s) {
      forall z ensures multiset(r)[z] <= 1 {
        assert multiset(s)[z] <= 1;
      }
    }
  }

  /** Removal by identity keeps every other element's membership. */
  lemma RemoveKeepsOthers<T(!new)>(s: seq<T>, x: T)
    ensures forall y :: y != x ==> (y in Remove(s, x) <==> y in s)
  {
    forall y | y != x ensures y in Remove(s, x) <==> y in s {
      RemoveMembership(s, x, y);
    }
  }

  /** Index of the first element of `s` whose key is `k`, or `|s|` when none is. */
  function FirstIndex<T, K(==)>(s: seq<T>, key: T -> K, k: K): (i: nat)
    ensures i <= |s|
    ensures i < |s| ==> key(s[i]) == k
    ensures forall j :: 0 <= j < i ==> key(s[j]) != k
  {
    if s == [] then 0
    else if key(s[0]) == k then 0
    else 1 + FirstIndex(s[1..], key, k)
  }

  /** Index of the last element of `s` whose key is `k`, or -1 when none is. */
  function LastIndex<T, K(==)>(s: seq<T>, key: T -> K, k: K): (i: int)
    ensures -1 <= i < |s|
    ensures i >= 0 ==> key(s[i]) == k
    ensures forall j :: i < j < |s| ==> key(s[j]) != k
  {
    if s == [] then -1
    else if key(s[|s| - 1]) == k then |s| - 1
    else LastIndex(s[..|s| - 1], key, k)
  }

  /** The first and the last entry with key `k` are the same entry exactly
      when no two entries carry that key. */
  lemma {:induction false} FirstIsLastIffUnique<T, K>(s: seq<T>, key: T -> K, k: K)
    requires exists j :: 0 <= j < |s| && key(s[j]) == k
    ensures FirstIndex(s, key, k) == LastIndex(s, key, k) <==>
            forall i, j :: 0 <= i < j < |s| && key(s[i]) == k ==> key(s[j]) != k
  {
    var f, l := FirstIndex(s, key, k), LastIndex(s, key, k);
    var j :| 0 <= j < |s| && key(s[j]) == k;
    assert f <= j <= l;
    if f != l {
      assert 0 <= f < l < |s| && key(s[f]) == k && key(s[l]) == k;
    }
  }

  /** Each source that some group of `groups` lists, mapped to one such
      group. */
  ghost function Owners<G>(groups: map<string, G>, sources: G -> seq<nat>): (owner: map<nat, string>)
    ensures forall s :: s in owner ==> owner[s] in groups && s in sources(groups[owner[s]])
    ensures forall n, s :: n in groups && s in sources(groups[n]) ==> s in owner
  {
    var listed := set n, s | n in groups && s in sources(groups[n]) :: s;
    map s | s in listed :: var n :| n in groups && s in sources(groups[n]); n
  }

  /** A registry that maps each name to the last entry of `list` carrying
      it, where no two entries list a common source: a source listed by a
      registered group is owned by that group alone. */
  lemma RegistryOwnsUniquely<G>(list: seq<G>, name: G -> string, sources: G -> seq<nat>,
                                groups: map<string, G>, owner: map<nat, string>)
    requires forall i, j, s :: 0 <= i < j < |list| && s in sources(list[i]) ==> s !in sources(list[j])
    requires forall n :: n in groups ==> LastIndex(list, name, n) >= 0 && groups[n] == list[LastIndex(list, name, n)]
    requires forall s :: s in owner ==> owner[s] in groups && s in sources(groups[owner[s]])
    ensures forall n, s :: n in groups && s in sources(groups[n]) && s in owner ==> owner[s] == n
  {
    forall n, s | n in groups && s in sources(groups[n]) && s in owner
      ensures owner[s] == n
    {
      var o := owner[s];
      var i, j := LastIndex(list, name, n), LastIndex(list, name, o);
      assert name(list[i]) == n && name(list[j]) == o;
      assert s in sources(list[i]) && s in sources(list[j]);
      assert i == j;
    }
  }

  /** The loop `foreach (e in s) dict[key(e)] = e;` started from an empty
      dictionary: every key present in `s` is mapped to the LAST entry
      carrying it, and no other key is present. */
  method BuildRegistry<T, K(==)>(s: seq<T>, key: T -> K) returns (m: map<K, T>)
    ensures forall k :: k in m <==> LastIndex(s, key, k) >= 0
    ensures forall k :: k in m ==> m[k] == s[LastIndex(s, key, k)]
  {
    m := map[];
    for i := 0 to |s|
      invariant forall k :: k in m <==> LastIndex(s[..i], key, k) >= 0
      invariant forall k :: k in m ==> m[k] == s[LastIndex(s[..i], key, k)]
    {
      assert s[..i + 1][..i] == s[..i];
      m := m[key(s[i]) := s[i]];
    }
    assert s[..|s|] == s;
  }
}
