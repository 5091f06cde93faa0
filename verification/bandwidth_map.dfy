/** The per-period ordered map `std::map<long,int>` of ABRManager.h (bandwidth -> profile
    index), kept as a sequence of entries in strictly increasing key order, which is the
    order in which the source's iterators visit it. A position in the sequence is an
    iterator; the difference of two positions is `std::distance`. */
module BandwidthMap {

  /** One (bandwidth, profile index) pair of the map. */
  datatype Entry = Entry(bandwidth: int, index: int)

  /** Keys strictly increase, so every key occurs once. */
  ghost predicate StrictlySorted(s: seq<Entry>)
  {
    forall i, j :: 0 <= i < j < |s| ==> s[i].bandwidth < s[j].bandwidth
  }

  /** The map that the entries denote. */
  function AsMap(s: seq<Entry>): map<int, int>
  {
    if s == [] then map[] else AsMap(s[1..])[s[0].bandwidth := s[0].index]
  }

  /** `find(key)`: the position of the first entry with that key, or -1 for `end()`. */
  function Find(s: seq<Entry>, key: int): (r: int)
    ensures -1 <= r < |s|
    ensures r >= 0 ==> s[r].bandwidth == key
    ensures r < 0 <==> forall i :: 0 <= i < |s| ==> s[i].bandwidth != key
  {
    if s == [] then -1
    else if s[0].bandwidth == key then 0
    else
      var r := Find(s[1..], key);
      if r < 0 then -1 else r + 1
  }

  /** Position of the last entry whose key is at most `bound`, or -1 when every key exceeds it. */
  function FloorPos(s: seq<Entry>, bound: int): (r: int)
    ensures -1 <= r < |s|
    ensures r >= 0 ==> s[r].bandwidth <= bound
    ensures forall i :: r < i < |s| ==> s[i].bandwidth > bound
  {
    if s == [] then -1
    else if s[|s| - 1].bandwidth <= bound then |s| - 1
    else FloorPos(s[..|s| - 1], bound)
  }

  /** `m[key] = value` on the ordered map: insert in key order, or overwrite an equal key. */
  function Insert(s: seq<Entry>, key: int, value: int): (r: seq<Entry>)
    requires StrictlySorted(s)
    ensures StrictlySorted(r)
    ensures forall e :: e in r ==> e in s || e == Entry(key, value)
  {
    if s == [] then [Entry(key, value)]
    else if key < s[0].bandwidth then [Entry(key, value)] + s
    else if key == s[0].bandwidth then [Entry(key, value)] + s[1..]
    else
      var rest := Insert(s[1..], key, value);
      assert forall e :: e in s[1..] ==> s[0].bandwidth < e.bandwidth;
      assert forall i :: 0 <= i < |rest| ==> s[0].bandwidth < rest[i].bandwidth by {
        forall i | 0 <= i < |rest| ensures s[0].bandwidth < rest[i].bandwidth {
          assert rest[i] in rest;
        }
      }
      [s[0]] + rest
  }

  /** Inserting binds the key to the value and leaves every other binding as it was. */
  lemma {:induction false} InsertAsMap(s: seq<Entry>, key: int, value: int)
    requires StrictlySorted(s)
    ensures AsMap(Insert(s, key, value)) == AsMap(s)[key := value]
  {
    var r := Insert(s, key, value);
    if s == [] {
    } else if key < s[0].bandwidth {
      assert r[1..] == s;
    } else if key == s[0].bandwidth {
      assert r[1..] == s[1..];
      assert AsMap(r) == AsMap(s[1..])[key := value];
    } else {
      var rest := Insert(s[1..], key, value);
      assert r[1..] == rest;
      InsertAsMap(s[1..], key, value);
      assert AsMap(r) == AsMap(s[1..])[key := value][s[0].bandwidth := s[0].index];
    }
  }

  /** Every entry of a strictly sorted sequence is a binding of its map. */
  lemma {:induction false} AsMapAt(s: seq<Entry>, i: int)
    requires StrictlySorted(s)
    requires 0 <= i < |s|
    ensures s[i].bandwidth in AsMap(s)
    ensures AsMap(s)[s[i].bandwidth] == s[i].index
  {
    if i > 0 {
      AsMapAt(s[1..], i - 1);
    }
  }

  /** The keys of the map are exactly the keys that `find` locates. */
  lemma {:induction false} AsMapKeys(s: seq<Entry>, key: int)
    ensures key in AsMap(s) <==> Find(s, key) >= 0
  {
    if s != [] {
      AsMapKeys(s[1..], key);
    }
  }

  /** Two strictly sorted sequences that denote the same map are the same sequence. */
  lemma {:induction false} AsMapInjective(s: seq<Entry>, t: seq<Entry>)
    requires StrictlySorted(s) && StrictlySorted(t)
    requires AsMap(s) == AsMap(t)
    ensures s == t
  {
    if s == [] || t == [] {
      if s != [] {
        AsMapAt(s, 0);
      } else if t != [] {
        AsMapAt(t, 0);
      }
    } else {
      AsMapAt(s, 0);
      AsMapAt(t, 0);
      // the least key of each is the least key of the other
      AsMapKeys(s, t[0].bandwidth);
      AsMapKeys(t, s[0].bandwidth);
      var i := Find(s, t[0].bandwidth);
      var j := Find(t, s[0].bandwidth);
      assert s[0].bandwidth <= s[i].bandwidth == t[0].bandwidth <= t[j].bandwidth == s[0].bandwidth;
      assert s[0] == t[0];
      NotInTail(s);
      NotInTail(t);
      assert AsMap(s[1..]) == AsMap(s) - {s[0].bandwidth};
      assert AsMap(t[1..]) == AsMap(t) - {t[0].bandwidth};
      AsMapInjective(s[1..], t[1..]);
    }
  }

  /** The first key of a strictly sorted sequence does not occur in its tail. */
  lemma NotInTail(s: seq<Entry>)
    requires StrictlySorted(s) && s != []
    ensures s[0].bandwidth !in AsMap(s[1..])
  {
    AsMapKeys(s[1..], s[0].bandwidth);
  }

  /** In a strictly sorted sequence, `FloorPos` is the unique position p whose key is at
      most the bound while the next key exceeds it. */
  lemma FloorPosAt(s: seq<Entry>, bound: int, p: int)
    requires StrictlySorted(s)
    requires -1 <= p < |s|
    requires p >= 0 ==> s[p].bandwidth <= bound
    requires p + 1 < |s| ==> s[p + 1].bandwidth > bound
    ensures FloorPos(s, bound) == p
  {
  }

  /** In a strictly sorted sequence, every entry up to `FloorPos` has a key within the bound. */
  lemma FloorPosPrefix(s: seq<Entry>, bound: int, i: int)
    requires StrictlySorted(s)
    requires 0 <= i <= FloorPos(s, bound)
    ensures s[i].bandwidth <= bound
  {
  }
}
