/**
 The hook's `$constraints` argument: a PHP array, that is an ordered map
 whose keys are strings or integers. `$a[] = v` appends `v` under the next
 free integer key, `$a['k'] = v` overwrites the entry of key `k` where it
 stands or appends it when there is none, and `unset($a['k'])` removes it.
 The next free integer key is part of the array's state: it does not go
 back down when an entry is removed.
 */
module OrderedArray {
  import opened Wrappers
  import opened Query

  datatype Key = Named(name: string) | Index(index: nat)

  datatype Entry = Entry(key: Key, value: Expr)

  ghost predicate DistinctKeys(es: seq<Entry>) {
    forall i, j | 0 <= i < j < |es| :: es[i].key != es[j].key
  }

  function ValuesOf(es: seq<Entry>): (r: seq<Expr>)
    ensures |r| == |es|
    ensures forall i | 0 <= i < |es| :: r[i] == es[i].value
  {
    seq(|es|, i requires 0 <= i < |es| => es[i].value)
  }

  /** The value stored under `k`, searching from the last entry back. */
  function LookupIn(es: seq<Entry>, k: Key): (r: Option<Expr>)
    ensures r.None? <==> forall i | 0 <= i < |es| :: es[i].key != k
    ensures r.Some? ==> exists i | 0 <= i < |es| :: es[i] == Entry(k, r.value)
  {
    if es == [] then None
    else if es[|es| - 1].key == k then Some(es[|es| - 1].value)
    else
      var r := LookupIn(es[..|es| - 1], k);
      assert forall i | 0 <= i < |es| - 1 :: es[..|es| - 1][i] == es[i];
      r
  }

  /** The entries other than the one of key `k`, in their order. */
  function Without(es: seq<Entry>, k: Key): (r: seq<Entry>)
    ensures forall e | e in r :: e in es && e.key != k
    ensures forall e | e in es && e.key != k :: e in r
    ensures |r| <= |es|
  {
    if es == [] then []
    else
      var w := Without(es[..|es| - 1], k);
      assert forall e | e in es :: e in es[..|es| - 1] || e == es[|es| - 1];
      if es[|es| - 1].key == k then w else w + [es[|es| - 1]]
  }

  /** The entries with the value under `k` replaced by `v`, in their order. */
  function Replaced(es: seq<Entry>, k: Key, v: Expr): (r: seq<Entry>)
    ensures |r| == |es|
    ensures forall i | 0 <= i < |es| :: r[i].key == es[i].key
    ensures forall i | 0 <= i < |es| :: r[i].value == if es[i].key == k then v else es[i].value
  {
    seq(|es|, i requires 0 <= i < |es| => if es[i].key == k then Entry(k, v) else es[i])
  }

  datatype PhpArray = PhpArray(entries: seq<Entry>, nextIndex: nat) {

    /** Keys are unique and every integer key lies below the next free one. */
    ghost predicate Valid() {
      DistinctKeys(entries) &&
      forall i | 0 <= i < |entries| && entries[i].key.Index? :: entries[i].key.index < nextIndex
    }

    function Lookup(k: Key): Option<Expr> {
      LookupIn(entries, k)
    }

    /** The constraints in the order the query receives them. */
    function Values(): seq<Expr> {
      ValuesOf(entries)
    }

    /** `$a[] = v` */
    function Append(v: Expr): (r: PhpArray)
      requires Valid()
      ensures r.Valid()
      ensures r.Values() == Values() + [v]
      ensures r.nextIndex == nextIndex + 1
    {
      PhpArray(entries + [Entry(Index(nextIndex), v)], nextIndex + 1)
    }

    /** `unset($a[name])` */
    function Unset(name: string): (r: PhpArray)
      requires Valid()
      ensures r.Valid()
      ensures Lookup(Named(name)) == None ==> r == this
      ensures forall i | 0 <= i < |entries| && entries[i].key == Named(name) ::
        r.entries == entries[..i] + entries[i + 1..]
      ensures r.nextIndex == nextIndex
    {
      WithoutDistinct(entries, Named(name));
      WithoutAbsent(entries, Named(name));
      forall i | 0 <= i < |entries| && entries[i].key == Named(name)
        ensures Without(entries, Named(name)) == entries[..i] + entries[i + 1..]
      {
        WithoutAt(entries, Named(name), i);
      }
      PhpArray(Without(entries, Named(name)), nextIndex)
    }

    /** `$a[name] = v` */
    function Put(name: string, v: Expr): (r: PhpArray)
      requires Valid()
      ensures r.Valid()
      ensures Lookup(Named(name)).None? ==> r.Values() == Values() + [v]
      ensures Lookup(Named(name)).Some? ==> |r.entries| == |entries|
      ensures Lookup(Named(name)).Some? ==>
        forall i | 0 <= i < |entries| ::
          r.entries[i].key == entries[i].key &&
          r.entries[i].value == if entries[i].key == Named(name) then v else entries[i].value
      ensures r.nextIndex == nextIndex
    {
      if Lookup(Named(name)).Some? then
        ReplacedLookup(entries, Named(name), v);
        PhpArray(Replaced(entries, Named(name), v), nextIndex)
      else
        PhpArray(entries + [Entry(Named(name), v)], nextIndex)
    }
  }

  /** An append stores the value under the next free integer key, which was unused, and no other. */
  lemma AppendLookup(a: PhpArray, v: Expr)
    requires a.Valid()
    ensures a.Lookup(Index(a.nextIndex)) == None
    ensures a.Append(v).Lookup(Index(a.nextIndex)) == Some(v)
    ensures forall k | k != Index(a.nextIndex) :: a.Append(v).Lookup(k) == a.Lookup(k)
  {
    assert a.Append(v).entries[..|a.entries|] == a.entries;
  }

  /** After `unset` the key is absent and every other key keeps its value. */
  lemma UnsetLookup(a: PhpArray, name: string)
    requires a.Valid()
    ensures a.Unset(name).Lookup(Named(name)) == None
    ensures forall k | k != Named(name) :: a.Unset(name).Lookup(k) == a.Lookup(k)
  {
    WithoutLookup(a.entries, Named(name));
  }

  /** After a keyed assignment the key holds the value and every other key keeps its value. */
  lemma PutLookup(a: PhpArray, name: string, v: Expr)
    requires a.Valid()
    ensures a.Put(name, v).Lookup(Named(name)) == Some(v)
    ensures forall k | k != Named(name) :: a.Put(name, v).Lookup(k) == a.Lookup(k)
  {
    if a.Lookup(Named(name)).Some? {
      ReplacedLookup(a.entries, Named(name), v);
    } else {
      assert a.Put(name, v).entries[..|a.entries|] == a.entries;
    }
  }

  lemma DistinctAppend(es: seq<Entry>, x: Entry)
    requires DistinctKeys(es)
    requires forall i | 0 <= i < |es| :: es[i].key != x.key
    ensures DistinctKeys(es + [x])
  {
  }

  /** Removing a key keeps the remaining keys distinct. */
  lemma {:induction false} WithoutDistinct(es: seq<Entry>, k: Key)
    requires DistinctKeys(es)
    ensures DistinctKeys(Without(es, k))
  {
    if es != [] {
      var init, last := es[..|es| - 1], es[|es| - 1];
      assert DistinctKeys(init);
      WithoutDistinct(init, k);
      var w := Without(init, k);
      if last.key != k {
        forall i | 0 <= i < |w| ensures w[i].key != last.key {
          assert w[i] in init;
          var m :| 0 <= m < |init| && init[m] == w[i];
          assert es[m] == w[i];
        }
        DistinctAppend(w, last);
      }
    }
  }

  /** Removing a key that is absent changes nothing. */
  lemma {:induction false} WithoutAbsent(es: seq<Entry>, k: Key)
    ensures LookupIn(es, k) == None ==> Without(es, k) == es
  {
    if es != [] && LookupIn(es, k) == None {
      WithoutAbsent(es[..|es| - 1], k);
      assert es == es[..|es| - 1] + [es[|es| - 1]];
    }
  }

  /** Removing the key of entry `i` leaves the entries before and after it, in their order. */
  /** `Without` takes the entries apart from the last one. */
  lemma WithoutLast(es: seq<Entry>, k: Key)
    requires es != []
    ensures Without(es, k) ==
      if es[|es| - 1].key == k then Without(es[..|es| - 1], k)
      else Without(es[..|es| - 1], k) + [es[|es| - 1]]
  {
  }

  /** Cutting entry `i` out of `s`, told apart from the last entry. */
  lemma CutOut<T>(s: seq<T>, i: nat)
    requires i < |s|
    ensures i == |s| - 1 ==> s[..i] + s[i + 1..] == s[..|s| - 1]
    ensures i < |s| - 1 ==>
      s[..i] + s[i + 1..] == (s[..|s| - 1][..i] + s[..|s| - 1][i + 1..]) + [s[|s| - 1]]
  {
  }

  /** The entries before the last one keep distinct keys, and none of them has the last one's key. */
  lemma DistinctInit(es: seq<Entry>)
    requires DistinctKeys(es) && es != []
    ensures DistinctKeys(es[..|es| - 1])
    ensures LookupIn(es[..|es| - 1], es[|es| - 1].key) == None
  {
  }

  lemma {:induction false} WithoutAt(es: seq<Entry>, k: Key, i: nat)
    requires DistinctKeys(es)
    requires i < |es| && es[i].key == k
    ensures Without(es, k) == es[..i] + es[i + 1..]
  {
    var init := es[..|es| - 1];
    DistinctInit(es);
    WithoutLast(es, k);
    CutOut(es, i);
    if i == |es| - 1 {
      WithoutAbsent(init, k);
    } else {
      WithoutAt(init, k, i);
    }
  }

  lemma {:induction false} WithoutLookup(es: seq<Entry>, k: Key)
    requires DistinctKeys(es)
    ensures LookupIn(Without(es, k), k) == None
    ensures forall k' | k' != k :: LookupIn(Without(es, k), k') == LookupIn(es, k')
  {
    if es != [] {
      var init := es[..|es| - 1];
      assert DistinctKeys(init);
      WithoutLookup(init, k);
      var w := Without(init, k);
      if es[|es| - 1].key != k {
        assert (w + [es[|es| - 1]])[..|w|] == w;
      }
    }
  }

  lemma ReplacedLookup(es: seq<Entry>, k: Key, v: Expr)
    requires DistinctKeys(es)
    requires LookupIn(es, k).Some?
    ensures DistinctKeys(Replaced(es, k, v))
    ensures LookupIn(Replaced(es, k, v), k) == Some(v)
    ensures forall k' | k' != k :: LookupIn(Replaced(es, k, v), k') == LookupIn(es, k')
  {
    var r := Replaced(es, k, v);
    forall k' | k' != k ensures LookupIn(r, k') == LookupIn(es, k') {
      LookupAgree(r, es, k');
    }
    var i :| 0 <= i < |es| && es[i].key == k;
    LookupUnique(r, i);
  }

  /** Two entry lists with the same keys, agreeing on the values under `k`. */
  lemma {:induction false} LookupAgree(a: seq<Entry>, b: seq<Entry>, k: Key)
    requires |a| == |b|
    requires forall i | 0 <= i < |a| :: a[i].key == b[i].key
    requires forall i | 0 <= i < |a| && a[i].key == k :: a[i].value == b[i].value
    ensures LookupIn(a, k) == LookupIn(b, k)
  {
    if a != [] {
      LookupAgree(a[..|a| - 1], b[..|b| - 1], k);
    }
  }

  /** With distinct keys, the lookup finds the one entry of that key. */
  lemma {:induction false} LookupUnique(es: seq<Entry>, i: nat)
    requires DistinctKeys(es)
    requires i < |es|
    ensures LookupIn(es, es[i].key) == Some(es[i].value)
  {
    if i < |es| - 1 {
      assert DistinctKeys(es[..|es| - 1]);
      LookupUnique(es[..|es| - 1], i);
    }
  }

  /**
   The constraint collection the hook receives by reference and changes in
   place.
   */
  class ConstraintSet {
    var entries: seq<Entry>
    var nextIndex: nat

    function Value(): PhpArray
      reads this
    {
      PhpArray(entries, nextIndex)
    }

    ghost predicate Valid()
      reads this
    {
      Value().Valid()
    }

    constructor (initial: PhpArray)
      requires initial.Valid()
      ensures Valid() && Value() == initial
    {
      entries := initial.entries;
      nextIndex := initial.nextIndex;
    }

    method Append(v: Expr)
      requires Valid()
      modifies this
      ensures Valid() && Value() == old(Value()).Append(v)
    {
      entries := entries + [Entry(Index(nextIndex), v)];
      nextIndex := nextIndex + 1;
    }

    method Unset(name: string)
      requires Valid()
      modifies this
      ensures Valid() && Value() == old(Value()).Unset(name)
    {
      WithoutDistinct(entries, Named(name));
      entries := Without(entries, Named(name));
    }

    method Put(name: string, v: Expr)
      requires Valid()
      modifies this
      ensures Valid() && Value() == old(Value()).Put(name, v)
    {
      if LookupIn(entries, Named(name)).Some? {
        entries := Replaced(entries, Named(name), v);
      } else {
        entries := entries + [Entry(Named(name), v)];
      }
    }
  }
}
