/**
 The recency order behind an LRU cache, as a function of the whole history of calls.
 */
module Recency {
  import opened Sequences
  import opened Wrappers

  type Key(==, !new)
  type Value(!new)

  datatype Call = Get(key: Key) | Put(key: Key, value: Value)

  function Without<T(==)>(s: seq<T>, x: T): (r: seq<T>)
  {
    if s == [] then [] else if s[0] == x then Without(s[1..], x) else [s[0]] + Without(s[1..], x)
  }

  ghost function Elements<T(!new)>(s: seq<T>): set<T> {
    set x | x in s
  }

  ghost predicate Distinct<T(!new)>(s: seq<T>) {
    forall i, j :: 0 <= i < j < |s| ==> s[i] != s[j]
  }

  // Each touched key once, the most recently touched first.
  function Recent(touches: seq<Key>): seq<Key> {
    if touches == [] then []
    else
      var k := touches[|touches| - 1];
      [k] + Without(Recent(touches[..|touches| - 1]), k)
  }

  // The keys touched after the last touch of k.
  function Since(touches: seq<Key>, k: Key): set<Key> {
    if touches == [] || touches[|touches| - 1] == k then {}
    else {touches[|touches| - 1]} + Since(touches[..|touches| - 1], k)
  }

  // The value of the last put of k.
  function LastPut(calls: seq<Call>, k: Key): Option<Value> {
    if calls == [] then None
    else
      var last := calls[|calls| - 1];
      if last.Put? && last.key == k then Some(last.value) else LastPut(calls[..|calls| - 1], k)
  }

  // The keys that calls touch, oldest first: every put, and every get of a key that was among the
  // `capacity` most recently touched.
  function Touches(capacity: nat, calls: seq<Call>): seq<Key> {
    if calls == [] then []
    else
      var before, last := Touches(capacity, calls[..|calls| - 1]), calls[|calls| - 1];
      if last.Put? || last.key in First(Recent(before), capacity) then before + [last.key] else before
  }

  // What the cache holds.
  datatype Contents = Contents(order: seq<Key>, values: map<Key, Value>)

  function Empty(): Contents {
    Contents([], map[])
  }

  function AfterGet(c: Contents, k: Key): Contents {
    if k in c.values then c.(order := [k] + Without(c.order, k)) else c
  }

  function AfterPut(capacity: nat, c: Contents, k: Key, v: Value): Contents
  {
    if capacity == 0 then c
    else if k in c.values then Contents([k] + Without(c.order, k), c.values[k := v])
    else if |c.order| == capacity then
      var last := |c.order| - 1;
      Contents([k] + c.order[..last], (c.values - {c.order[last]})[k := v])
    else Contents([k] + c.order, c.values[k := v])
  }

  function Lookup(c: Contents, k: Key): Option<Value> {
    if k in c.values then Some(c.values[k]) else None
  }

  function Step(capacity: nat, c: Contents, call: Call): Contents {
    match call
    case Get(k) => AfterGet(c, k)
    case Put(k, v) => AfterPut(capacity, c, k, v)
  }

  // What a run of calls on an empty cache leaves.
  function Run(capacity: nat, calls: seq<Call>): Contents {
    if calls == [] then Empty() else Step(capacity, Run(capacity, calls[..|calls| - 1]), calls[|calls| - 1])
  }

  // The definition by history: the first `capacity` keys, each with its last put value.
  ghost predicate IsHistory(capacity: nat, calls: seq<Call>, c: Contents) {
    && c.order == First(Recent(Touches(capacity, calls)), capacity)
    && (forall k :: k in c.values <==> k in c.order)
    && (forall k :: k in c.values ==> LastPut(calls, k) == Some(c.values[k]))
  }

  lemma {:induction false} WithoutElements<T(!new)>(s: seq<T>, x: T)
    ensures Elements(Without(s, x)) == Elements(s) - {x}
  {
    if s != [] {
      WithoutElements(s[1..], x);
      assert Elements(s) == {s[0]} + Elements(s[1..]);
      if s[0] != x {
        assert Elements(Without(s, x)) == {s[0]} + Elements(Without(s[1..], x));
      }
    }
  }

  lemma {:induction false} WithoutAbsent<T(!new)>(s: seq<T>, x: T)
    requires x !in s
    ensures Without(s, x) == s
  {
    if s != [] {
      assert s[0] in s;
      WithoutAbsent(s[1..], x);
    }
  }

  lemma {:induction false} WithoutConcat<T(!new)>(a: seq<T>, b: seq<T>, x: T)
    ensures Without(a + b, x) == Without(a, x) + Without(b, x)
  {
    if a == [] {
      assert a + b == b;
    } else {
      assert (a + b)[1..] == a[1..] + b;
      WithoutConcat(a[1..], b, x);
    }
  }

  lemma OnlyOnce<T(!new)>(s: seq<T>, i: nat)
    requires Distinct(s) && i < |s|
    ensures s[i] !in s[..i] && s[i] !in s[i + 1..]
  {
  }

  // In a sequence of distinct elements there is one occurrence to leave out.
  lemma WithoutAt<T(!new)>(s: seq<T>, i: nat)
    requires Distinct(s) && i < |s|
    ensures Without(s, s[i]) == s[..i] + s[i + 1..]
  {
    OnlyOnce(s, i);
    WithoutMiddle(s[..i], s[i], s[i + 1..]);
    assert s == s[..i] + ([s[i]] + s[i + 1..]);
  }

  lemma WithoutMiddle<T(!new)>(a: seq<T>, x: T, b: seq<T>)
    requires x !in a && x !in b
    ensures Without(a + ([x] + b), x) == a + b
  {
    WithoutConcat(a, [x] + b, x);
    WithoutAbsent(a, x);
    WithoutAbsent(b, x);
    assert ([x] + b)[1..] == b;
  }

  lemma {:induction false} WithoutDistinct<T(!new)>(s: seq<T>, x: T)
    requires Distinct(s)
    ensures Distinct(Without(s, x))
  {
    if x in s {
      var i :| 0 <= i < |s| && s[i] == x;
      WithoutAt(s, i);
    } else {
      WithoutAbsent(s, x);
    }
  }

  lemma {:induction false} RecentIsDistinct(touches: seq<Key>)
    ensures Distinct(Recent(touches))
    ensures Elements(Recent(touches)) == Elements(touches)
  {
    if touches != [] {
      var front, k := touches[..|touches| - 1], touches[|touches| - 1];
      RecentIsDistinct(front);
      WithoutDistinct(Recent(front), k);
      WithoutElements(Recent(front), k);
      assert k !in Without(Recent(front), k) by {
        assert k !in Elements(Without(Recent(front), k));
      }
      assert touches == front + [k];
      assert Elements(Recent(touches)) == {k} + Elements(Without(Recent(front), k));
    }
  }

  // Moving k to the front and cutting is cutting first, when k survives the cut, ...
  lemma TouchKept(s: seq<Key>, capacity: nat, k: Key)
    requires Distinct(s) && k in First(s, capacity)
    ensures First([k] + Without(s, k), capacity) == [k] + Without(First(s, capacity), k)
  {
    var i :| 0 <= i < |First(s, capacity)| && First(s, capacity)[i] == k;
    WithoutAt(s, i);
    WithoutAt(First(s, capacity), i);
    if capacity < |s| {
      FrontOfMoved(s, capacity, i);
    }
  }

  lemma FrontOfMoved(s: seq<Key>, n: nat, i: nat)
    requires i < n <= |s|
    ensures ([s[i]] + (s[..i] + s[i + 1..]))[..n] == [s[i]] + (s[..n][..i] + s[..n][i + 1..])
  {
  }

  lemma FirstHas(s: seq<Key>, n: nat, i: nat)
    requires i < |s|
    ensures i < n ==> s[i] in First(s, n)
  {
  }

  // ... and otherwise only the keys before the last place stay.
  lemma TouchNew(s: seq<Key>, capacity: nat, k: Key)
    requires Distinct(s) && capacity > 0 && k !in First(s, capacity)
    ensures First([k] + Without(s, k), capacity)
         == [k] + (if |First(s, capacity)| == capacity then First(s, capacity)[..capacity - 1] else First(s, capacity))
  {
    if k in s {
      var i :| 0 <= i < |s| && s[i] == k;
      WithoutAt(s, i);
      FirstHas(s, capacity, i);
    } else {
      WithoutAbsent(s, k);
    }
  }

  lemma TouchedLast(before: seq<Key>, k: Key)
    ensures Recent(before + [k]) == [k] + Without(Recent(before), k)
  {
  }

  lemma MovedHas(order: seq<Key>, k: Key, j: Key)
    requires k in order
    ensures j in [k] + Without(order, k) <==> j in order
  {
    WithoutElements(order, k);
    assert j in Without(order, k) <==> j in Elements(order) - {k};
  }

  lemma GetKeepsHistory(capacity: nat, calls: seq<Call>, c: Contents, k: Key)
    requires IsHistory(capacity, calls, c)
    ensures IsHistory(capacity, calls + [Get(k)], AfterGet(c, k))
  {
    var all := calls + [Get(k)];
    var before := Touches(capacity, calls);
    assert all[..|all| - 1] == calls;
    if k in c.values {
      RecentIsDistinct(before);
      TouchedLast(before, k);
      TouchKept(Recent(before), capacity, k);
      forall j
        ensures j in [k] + Without(c.order, k) <==> j in c.order
      {
        MovedHas(c.order, k, j);
      }
    }
  }

  lemma PutOrder(capacity: nat, calls: seq<Call>, c: Contents, k: Key, v: Value)
    requires IsHistory(capacity, calls, c) && capacity > 0
    ensures AfterPut(capacity, c, k, v).order == First(Recent(Touches(capacity, calls + [Put(k, v)])), capacity)
  {
    var all := calls + [Put(k, v)];
    var before := Touches(capacity, calls);
    assert all[..|all| - 1] == calls;
    RecentIsDistinct(before);
    TouchedLast(before, k);
    if k in c.values {
      TouchKept(Recent(before), capacity, k);
    } else {
      TouchNew(Recent(before), capacity, k);
    }
  }

  lemma PutKeys(capacity: nat, c: Contents, k: Key, v: Value, j: Key)
    requires capacity > 0 && Distinct(c.order) && forall i :: i in c.values <==> i in c.order
    ensures j in AfterPut(capacity, c, k, v).values <==> j in AfterPut(capacity, c, k, v).order
  {
    if k in c.values {
      MovedHas(c.order, k, j);
    } else if |c.order| == capacity {
      var last := c.order[capacity - 1];
      assert c.order == c.order[..capacity - 1] + [last];
    }
  }

  lemma FirstIsDistinct(s: seq<Key>, n: nat)
    requires Distinct(s)
    ensures Distinct(First(s, n))
  {
  }

  lemma PutKeepsHistory(capacity: nat, calls: seq<Call>, c: Contents, k: Key, v: Value)
    requires IsHistory(capacity, calls, c) && capacity > 0
    ensures IsHistory(capacity, calls + [Put(k, v)], AfterPut(capacity, c, k, v))
  {
    var all := calls + [Put(k, v)];
    var d := AfterPut(capacity, c, k, v);
    assert all[..|all| - 1] == calls;
    PutOrder(capacity, calls, c, k, v);
    RecentIsDistinct(Touches(capacity, calls));
    FirstIsDistinct(Recent(Touches(capacity, calls)), capacity);
    forall j
      ensures j in d.values <==> j in d.order
    {
      PutKeys(capacity, c, k, v, j);
    }
    forall j | j in d.values
      ensures LastPut(all, j) == Some(d.values[j])
    {
      assert j != k ==> j in c.values;
    }
  }

  lemma RunOneMore(capacity: nat, calls: seq<Call>, call: Call)
    ensures Run(capacity, calls + [call]) == Step(capacity, Run(capacity, calls), call)
  {
  }

  /**
   After any run the cache holds exactly the first `capacity` keys in most-recently-touched order,
   each with the value of its last put.
   */
  lemma {:induction false} RunIsHistory(capacity: nat, calls: seq<Call>)
    ensures IsHistory(capacity, calls, Run(capacity, calls))
  {
    if calls != [] {
      var before, last := calls[..|calls| - 1], calls[|calls| - 1];
      RunIsHistory(capacity, before);
      assert calls == before + [last];
      match last
      case Get(k) =>
        GetKeepsHistory(capacity, before, Run(capacity, before), k);
      case Put(k, v) =>
        if capacity > 0 {
          PutKeepsHistory(capacity, before, Run(capacity, before), k, v);
        }
    }
  }

  // The keys before one in the recency order are those touched since.
  lemma {:induction false} BeforeIsSince(touches: seq<Key>, i: nat)
    requires i < |Recent(touches)|
    ensures Elements(Recent(touches)[..i]) == Since(touches, Recent(touches)[i])
    decreases touches, i, 1
  {
    var front, k := touches[..|touches| - 1], touches[|touches| - 1];
    var r := Recent(front);
    RecentIsDistinct(touches);
    RecentIsDistinct(front);
    if i > 0 {
      assert Recent(touches)[0] == k != Recent(touches)[i];
      if k in r {
        var m :| 0 <= m < |r| && r[m] == k;
        MovedIsSince(touches, i, m);
      } else {
        WithoutAbsent(r, k);
        BeforeIsSince(front, i - 1);
        assert Recent(touches)[..i] == [k] + r[..i - 1];
      }
    }
  }

  lemma {:induction false} MovedIsSince(touches: seq<Key>, i: nat, m: nat)
    requires touches != [] && 0 < i < |Recent(touches)| && Recent(touches)[i] != touches[|touches| - 1]
    requires var r := Recent(touches[..|touches| - 1]); m < |r| && r[m] == touches[|touches| - 1] && Distinct(r)
    ensures Elements(Recent(touches)[..i]) == Since(touches, Recent(touches)[i])
    decreases touches, i, 0
  {
    hide Elements, Distinct;
    var front, k := touches[..|touches| - 1], touches[|touches| - 1];
    var r := Recent(front);
    WithoutAt(r, m);
    var at := if i - 1 < m then i - 1 else i;
    assert Recent(touches)[i] == (r[..m] + r[m + 1..])[i - 1] == r[at];
    BeforeIsSince(front, at);
    Moved(r, m, i, at);
  }

  lemma Moved(r: seq<Key>, m: nat, i: nat, at: nat)
    requires m < |r| && 0 < i < |r| && at == if i - 1 < m then i - 1 else i
    ensures Elements(([r[m]] + (r[..m] + r[m + 1..]))[..i]) == {r[m]} + Elements(r[..at])
  {
    var s := [r[m]] + (r[..m] + r[m + 1..]);
    if i - 1 < m {
      assert s[..i] == [r[m]] + r[..i - 1];
    } else {
      assert s[..i] == [r[m]] + (r[..m] + r[m + 1..i]);
      assert r[..i] == r[..m] + [r[m]] + r[m + 1..i];
    }
  }

  lemma {:induction false} DistinctCount<T(!new)>(s: seq<T>)
    requires Distinct(s)
    ensures |Elements(s)| == |s|
  {
    if s != [] {
      var front, last := s[..|s| - 1], s[|s| - 1];
      DistinctCount(front);
      assert Elements(s) == Elements(front) + {last};
      assert last !in front;
    }
  }

  /** A touched key is still held exactly while fewer than `capacity` other keys were touched since. */
  lemma HeldWhileRecent(capacity: nat, calls: seq<Call>, k: Key)
    ensures var touches := Touches(capacity, calls);
      k in Run(capacity, calls).values <==> k in touches && |Since(touches, k)| < capacity
  {
    var touches := Touches(capacity, calls);
    var r := Recent(touches);
    RunIsHistory(capacity, calls);
    RecentIsDistinct(touches);
    assert k in touches <==> k in Elements(r);
    if k in r {
      var i :| 0 <= i < |r| && r[i] == k;
      BeforeIsSince(touches, i);
      DistinctCount(r[..i]);
      assert i < capacity ==> First(r, capacity)[i] == k;
    } else {
      assert k !in First(r, capacity);
    }
  }
}

/**
 The LruCache of tasks/lru-cache/reference.hpp: a list of nodes and an index from keys to those nodes.
 */
module LruCaches {
  import opened Recency
  import opened Wrappers

  class Node {
    const key: Key
    var value: Value

    constructor (key: Key, value: Value)
      ensures this.key == key && this.value == value
    {
      this.key := key;
      this.value := value;
    }
  }

  function KeysOf(items: seq<Node>): seq<Key> {
    seq(|items|, i requires 0 <= i < |items| => items[i].key)
  }

  // A list and an index hold the same nodes, one for each key.
  ghost predicate Links(items: seq<Node>, index: map<Key, Node>) {
    && Distinct(KeysOf(items))
    && (forall k :: k in index <==> k in KeysOf(items))
    && (forall k :: k in index ==> index[k] in items && index[k].key == k)
  }

  ghost function ValuesOf(index: map<Key, Node>): map<Key, Value>
    reads index.Values
  {
    map k | k in index :: index[k].value
  }

  lemma ValuesWithout(index: map<Key, Node>, key: Key)
    ensures ValuesOf(index - {key}) == ValuesOf(index) - {key}
  {
  }

  lemma ValuesWith(index: map<Key, Node>, key: Key, node: Node)
    ensures ValuesOf(index[key := node]) == ValuesOf(index)[key := node.value]
  {
  }

  class LruCache {
    const capacity: nat
    var items: seq<Node>
    var index: map<Key, Node>
    // Every get and put so far.
    ghost var calls: seq<Call>

    ghost predicate Linked()
      reads this`items, this`index
    {
      Links(items, index)
    }

    ghost function Held(): Contents
      reads this`items, this`index, items
      requires Linked()
    {
      Contents(KeysOf(items), ValuesOf(index))
    }

    ghost predicate Valid()
      reads this, items
    {
      |items| <= capacity && Linked() && Held() == Run(capacity, calls)
    }

    constructor (capacity: nat)
      ensures Valid() && this.capacity == capacity && calls == []
    {
      this.capacity := capacity;
      items, index := [], map[];
      calls := [];
    }

    method Get(key: Key) returns (r: Option<Value>)
      requires Valid()
      modifies this
      ensures Valid() && calls == old(calls) + [Recency.Get(key)]
      ensures forall n :: n in items ==> n in old(items)
      ensures r == if key in old(Held()).order then LastPut(old(calls), key) else None
    {
      RunIsHistory(capacity, calls);
      RunOneMore(capacity, calls, Recency.Get(key));
      calls := calls + [Recency.Get(key)];
      if key !in index {
        return None;
      }
      var node := index[key];
      MoveToFront(node);
      r := Some(node.value);
    }

    method Put(key: Key, value: Value)
      requires Valid()
      modifies this, items
      ensures Valid() && calls == old(calls) + [Recency.Put(key, value)]
      ensures forall n :: n in items ==> n in old(items) || fresh(n)
    {
      hide Run, Links, KeysOf, ValuesOf;
      RunOneMore(capacity, calls, Recency.Put(key, value));
      calls := calls + [Recency.Put(key, value)];
      if capacity == 0 {
        return;
      }
      if key in index {
        PutOld(key, value);
      } else {
        PutNew(key, value);
      }
    }

    method PutOld(key: Key, value: Value)
      requires Linked() && key in index && 0 < capacity
      modifies this`items, items
      ensures Linked() && |items| == old(|items|)
      ensures Held() == AfterPut(capacity, old(Held()), key, value)
      ensures forall n :: n in items ==> n in old(items)
    {
      var node := index[key];
      SetValue(node, value);
      MoveToFront(node);
    }

    method PutNew(key: Key, value: Value)
      requires Linked() && key !in index && 0 < capacity && |items| <= capacity
      modifies this`items, this`index
      ensures Linked() && |items| <= capacity
      ensures Held() == AfterPut(capacity, old(Held()), key, value)
      ensures forall n :: n in items ==> n in old(items) || fresh(n)
    {
      if |items| == capacity {
        PopBack();
      }
      PushFront(key, value);
    }

    // The list's splice of one node to the front.
    method MoveToFront(node: Node)
      requires Linked() && node in items
      modifies this`items
      ensures Linked() && |items| == old(|items|)
      ensures Held() == Contents([node.key] + Without(old(Held()).order, node.key), old(Held()).values)
      ensures forall n :: n in items <==> n in old(items)
    {
      MovedNode(items, node);
      items := [node] + Without(items, node);
    }

    method SetValue(node: Node, value: Value)
      requires Linked() && node in items
      modifies node`value
      ensures Linked() && Held() == Contents(old(Held()).order, old(Held()).values[node.key := value])
    {
      assert forall n :: n in items && n != node ==> n.key != node.key by {
        KeysOfNodes(items);
      }
      assert node.key in index by {
        KeysOfNodes(items);
      }
      node.value := value;
    }

    method PopBack()
      requires Linked() && items != []
      modifies this`items, this`index
      ensures Linked() && items == old(items[..|items| - 1])
      ensures var was := old(Held());
        Held() == Contents(was.order[..|was.order| - 1], was.values - {was.order[|was.order| - 1]})
    {
      var last := items[|items| - 1];
      LinksWithoutLast(items, index);
      hide Links, KeysOf, ValuesOf;
      ghost var all, values := index, ValuesOf(index);
      index := index - {last.key};
      items := items[..|items| - 1];
      assert ValuesOf(all) == values;
      ValuesWithout(all, last.key);
    }

    method PushFront(key: Key, value: Value)
      requires Linked() && key !in index
      modifies this`items, this`index
      ensures Linked() && items != [] && fresh(items[0]) && items[1..] == old(items)
      ensures Held() == Contents([key] + old(Held()).order, old(Held()).values[key := value])
    {
      var node := new Node(key, value);
      WithFirst(items, node);
      ValuesWith(index, key, node);
      items := [node] + items;
      index := index[key := node];
    }

    /** A key is held while fewer than `capacity` others have been touched since its own last touch. */
    method Contains(key: Key) returns (r: bool)
      requires Valid()
      ensures var touches := Touches(capacity, calls); r <==> key in touches && |Since(touches, key)| < capacity
    {
      HeldWhileRecent(capacity, calls, key);
      assert key in Held().values <==> key in index;
      r := key in index;
    }

    method Size() returns (n: nat)
      requires Valid()
      ensures n == |Held().order| <= capacity
    {
      n := |items|;
    }
  }

  lemma {:induction false} KeysOfWithout(items: seq<Node>, node: Node)
    requires forall i :: 0 <= i < |items| && items[i].key == node.key ==> items[i] == node
    ensures KeysOf(Without(items, node)) == Without(KeysOf(items), node.key)
    ensures forall n :: n in Without(items, node) ==> n in items
    ensures forall n :: n in items && n != node ==> n in Without(items, node)
  {
    if items != [] {
      assert KeysOf(items)[1..] == KeysOf(items[1..]);
      KeysOfWithout(items[1..], node);
    }
  }

  lemma KeysOfNodes(items: seq<Node>)
    requires Distinct(KeysOf(items))
    ensures forall n :: n in items ==> n.key in KeysOf(items)
    ensures forall m, n :: m in items && n in items && m.key == n.key ==> m == n
  {
    forall n | n in items
      ensures n.key in KeysOf(items)
    {
      var i :| 0 <= i < |items| && items[i] == n;
      assert KeysOf(items)[i] == n.key;
    }
    forall m, n | m in items && n in items && m.key == n.key
      ensures m == n
    {
      var i :| 0 <= i < |items| && items[i] == m;
      var j :| 0 <= j < |items| && items[j] == n;
      assert KeysOf(items)[i] == KeysOf(items)[j];
    }
  }

  lemma WithFirst(items: seq<Node>, node: Node)
    requires Distinct(KeysOf(items)) && node.key !in KeysOf(items)
    ensures KeysOf([node] + items) == [node.key] + KeysOf(items)
    ensures Distinct([node.key] + KeysOf(items))
  {
  }

  lemma WithoutLast(items: seq<Node>)
    requires items != [] && Distinct(KeysOf(items))
    ensures var n := |items| - 1;
      && KeysOf(items[..n]) == KeysOf(items)[..n] && Distinct(KeysOf(items)[..n])
      && (forall k :: k in KeysOf(items)[..n] <==> k in KeysOf(items) && k != items[n].key)
      && (forall m :: m in items && m.key != items[n].key ==> m in items[..n])
  {
    var n := |items| - 1;
    assert KeysOf(items[..n]) == KeysOf(items)[..n];
    assert items == items[..n] + [items[n]];
    LastIsOut(KeysOf(items));
  }

  lemma LinksWithoutLast(items: seq<Node>, index: map<Key, Node>)
    requires items != [] && Links(items, index)
    ensures var n := |items| - 1;
      && Links(items[..n], index - {items[n].key})
      && KeysOf(items[..n]) == KeysOf(items)[..n] && |KeysOf(items)| == n + 1 && KeysOf(items)[n] == items[n].key
  {
    WithoutLast(items);
    hide Distinct, KeysOf;
  }

  lemma LastIsOut(keys: seq<Key>)
    requires keys != [] && Distinct(keys)
    ensures forall k :: k in keys[..|keys| - 1] <==> k in keys && k != keys[|keys| - 1]
  {
  }

  // Moving a node to the front moves its key to the front, and loses no node.
  lemma MovedNode(items: seq<Node>, node: Node)
    requires node in items && Distinct(KeysOf(items))
    ensures KeysOf([node] + Without(items, node)) == [node.key] + Without(KeysOf(items), node.key)
    ensures forall n :: n in [node] + Without(items, node) <==> n in items
    ensures Distinct([node.key] + Without(KeysOf(items), node.key))
    ensures forall k :: k in [node.key] + Without(KeysOf(items), node.key) <==> k in KeysOf(items)
    ensures |Without(items, node)| + 1 == |items|
  {
    KeysOfNodes(items);
    KeysOfWithout(items, node);
    assert KeysOf([node] + Without(items, node)) == [node.key] + KeysOf(Without(items, node));
    MovedKey(KeysOf(items), node.key);
    assert |KeysOf(Without(items, node))| == |Without(items, node)|;
  }

  lemma MovedKey(keys: seq<Key>, key: Key)
    requires key in keys && Distinct(keys)
    ensures Distinct([key] + Without(keys, key)) && |Without(keys, key)| + 1 == |keys|
    ensures forall k :: k in [key] + Without(keys, key) <==> k in keys
  {
    forall k
      ensures k in [key] + Without(keys, key) <==> k in keys
    {
      MovedHas(keys, key, k);
    }
    WithoutDistinct(keys, key);
    WithoutElements(keys, key);
    assert key !in Elements(Without(keys, key));
    var i :| 0 <= i < |keys| && keys[i] == key;
    WithoutAt(keys, i);
  }
}
