/** The keyed container of packages/common/src/hash-set.ts, which is its own iterator. */
module HashSets {
  import opened Common

  /** The value a container holds: its keys in insertion order, and what each maps to. */
  datatype Table<T> = Table(order: seq<string>, dict: map<string, T>) {
    ghost predicate Valid() {
      Distinct(order) && Elements(order) == dict.Keys
    }

    function Put(key: string, value: T): (t: Table<T>)
      ensures Valid() ==> t.Valid()
    {
      var t := Table(if key in dict then order else order + [key], dict[key := value]);
      assert Valid() ==> t.Valid() by {
        if Valid() {
          assert forall k :: k in order <==> k in Elements(order);
          assert Elements(order + [key]) == Elements(order) + {key};
          if key in dict { assert t.dict.Keys == dict.Keys; }
        }
      }
      t
    }

    function Delete(key: string): Table<T> {
      Table(Filter(k => k != key, order), dict - {key})
    }

    function Lookup(key: string): Option<T> {
      if key in dict then Some(dict[key]) else None
    }

    /** What the container holds, in key order. */
    function Values(): (r: seq<T>)
      requires Valid()
      ensures |r| == |order| && forall i :: 0 <= i < |r| ==> order[i] in dict && r[i] == dict[order[i]]
    {
      assert forall i :: 0 <= i < |order| ==> order[i] in Elements(order);
      seq(|order|, i requires 0 <= i < |order| => dict[order[i]])
    }
  }

  lemma DeleteValid<T>(t: Table<T>, key: string)
    requires t.Valid()
    ensures t.Delete(key).Valid()
  {
    FilterKeepsDistinct(k => k != key, t.order);
    FilterMembers(k => k != key, t.order);
    assert forall k :: k in t.order <==> k in Elements(t.order);
  }

  datatype IteratorResult<T> = Done | Yield(value: Option<T>)

  class HashSet<T> {
    var hashDictionary: map<string, T>
    var order: seq<string> // what Object.keys returns
    var pointer: nat
    var keysSnapshot: Option<seq<string>>

    ghost predicate Valid()
      reads this
    {
      && Contents().Valid()
      && (keysSnapshot.Some? ==> pointer <= |keysSnapshot.value|)
    }

    function Contents(): Table<T>
      reads this
    {
      Table(order, hashDictionary)
    }

    /** The keys an iteration has still to visit. */
    function Pending(): seq<string>
      reads this
    {
      if keysSnapshot.None? then order else if pointer <= |keysSnapshot.value| then keysSnapshot.value[pointer..] else []
    }

    constructor ()
      ensures Valid() && Contents() == Table([], map[]) && keysSnapshot.None?
    {
      hashDictionary, order, pointer, keysSnapshot := map[], [], 0, None;
    }

    method Add(key: string, value: T)
      requires Valid()
      modifies this`hashDictionary, this`order
      ensures Valid() && Contents() == old(Contents()).Put(key, value)
    {
      assert Contents().Put(key, value).Valid();
      if key !in hashDictionary { order := order + [key]; }
      hashDictionary := hashDictionary[key := value];
    }

    method Get(key: string) returns (r: Option<T>)
      ensures r == Contents().Lookup(key)
    {
      r := if key in hashDictionary then Some(hashDictionary[key]) else None;
    }

    method Has(key: string) returns (r: bool)
      ensures r <==> key in Contents().dict
    {
      r := key in hashDictionary;
    }

    method Remove(key: string)
      requires Valid()
      modifies this`hashDictionary, this`order
      ensures Valid() && Contents() == old(Contents()).Delete(key)
      ensures Contents().Lookup(key).None?
    {
      DeleteValid(Contents(), key);
      order := Filter(k => k != key, order);
      hashDictionary := hashDictionary - {key};
    }

    /** One iterator step: takes a snapshot when none is open, visits the next key, or closes the snapshot. */
    method Next() returns (r: IteratorResult<T>)
      requires Valid()
      modifies this`pointer, this`keysSnapshot
      ensures Valid() && Contents() == old(Contents())
      ensures old(Pending()) == [] ==> r == Done && keysSnapshot.None?
      ensures old(Pending()) != [] ==> r == Yield(Contents().Lookup(old(Pending())[0]))
                                       && keysSnapshot.Some? && Pending() == old(Pending())[1..]
    {
      if keysSnapshot.None? {
        pointer := 0;
        keysSnapshot := Some(order);
      }
      if pointer < |keysSnapshot.value| {
        var value := Get(keysSnapshot.value[pointer]);
        pointer := pointer + 1;
        r := Yield(value);
      } else {
        keysSnapshot := None;
        r := Done;
      }
    }

    /** `Array.from(this)`: drains the iteration. With none open, every key is visited once and the state is reset. */
    method Values() returns (r: seq<Option<T>>)
      requires Valid()
      modifies this`pointer, this`keysSnapshot
      ensures Valid() && Contents() == old(Contents()) && keysSnapshot.None?
      ensures |r| == |old(Pending())|
      ensures forall i :: 0 <= i < |r| ==> r[i] == Contents().Lookup(old(Pending())[i])
    {
      hide Valid, Contents, Pending, Table<T>.Lookup;
      r := [];
      ghost var todo, t := Pending(), Contents();
      while true
        invariant Valid() && Contents() == t
        invariant |r| <= |todo| && Pending() == todo[|r|..]
        invariant forall i :: 0 <= i < |r| ==> r[i] == t.Lookup(todo[i])
        decreases |todo| - |r|
      {
        SuffixHead(todo, |r|);
        var step := Next();
        if step.Done? { break; }
        r := r + [step.value];
      }
    }
  }

  lemma SuffixHead<T>(s: seq<T>, i: nat)
    requires i <= |s|
    ensures s[i..] == [] <==> i == |s|
    ensures i < |s| ==> s[i..][0] == s[i] && s[i..][1..] == s[i + 1..]
  {}

  /** Draining yields each key exactly once if and only if the keys still to visit are a rearrangement of the keys held;
      an iteration left open after its first step and drained over unchanged contents always misses one. */
  lemma OpenIterationMissesKeys<T>(t: Table<T>, snapshot: seq<string>, pointer: nat)
    requires t.Valid() && snapshot == t.order && pointer <= |snapshot|
    ensures (forall k :: k in t.dict ==> k in snapshot[pointer..]) <==> pointer == 0 || t.order == []
  {
    assert forall k :: k in t.order <==> k in Elements(t.order);
    if pointer > 0 && t.order != [] {
      assert t.order[0] in t.dict && t.order[0] !in snapshot[pointer..];
    } else if pointer == 0 {
      assert snapshot[0..] == snapshot;
    }
  }
}
