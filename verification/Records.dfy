/**
 The record database of src/libdbfile: a write-back cache of records that hold nested
 member records, over a keyed store (src/libdbfile/gdbmfile.cpp).
 */
module Values {
  /** A value object: its own text, and keyed children. */
  datatype Value = Value(text: string, kids: map<string, Value>)

  const EMPTY := Value("", map[])

  function Child(v: Value, k: string): Value {
    if k in v.kids then v.kids[k] else EMPTY
  }

  /** v[k] on a value that may change: the child is created when it is not there. */
  function Touch(v: Value, k: string): Value {
    v.(kids := v.kids[k := Child(v, k)])
  }

  /** v[k] = x */
  function SetChild(v: Value, k: string, x: Value): Value {
    v.(kids := v.kids[k := x])
  }

  /** What is at a path; nothing is there when the path leaves the tree. */
  function At(v: Value, path: seq<string>): Value
    decreases path
  {
    if path == [] then v else At(Child(v, path[0]), path[1..])
  }

  /** The value with the subtree at a path replaced. */
  function Put(v: Value, path: seq<string>, x: Value): Value
    decreases path
  {
    if path == [] then x else SetChild(v, path[0], Put(Child(v, path[0]), path[1..], x))
  }

  ghost predicate Disjoint(p: seq<string>, q: seq<string>) {
    !(p <= q) && !(q <= p)
  }

  lemma {:induction false} PutThenAt(v: Value, path: seq<string>, x: Value)
    ensures At(Put(v, path, x), path) == x
    decreases path
  {
    if path != [] { PutThenAt(Child(v, path[0]), path[1..], x); }
  }

  /** A write does not show at any path that it is neither above nor below of. */
  lemma {:induction false} PutElsewhere(v: Value, p: seq<string>, x: Value, q: seq<string>)
    requires Disjoint(p, q)
    ensures At(Put(v, p, x), q) == At(v, q)
    decreases p
  {
    if p[0] == q[0] {
      assert p == [p[0]] + p[1..] && q == [q[0]] + q[1..];
      PutElsewhere(Child(v, p[0]), p[1..], x, q[1..]);
    }
  }

  /** Above the place that is written, the nodes keep their texts and children, and have the one
      on the way to it. */
  lemma {:induction false} PutAbove(v: Value, p: seq<string>, x: Value, q: seq<string>)
    requires q < p
    ensures At(Put(v, p, x), q).text == At(v, q).text
    ensures At(Put(v, p, x), q).kids.Keys == At(v, q).kids.Keys + {p[|q|]}
    decreases p
  {
    if q != [] {
      assert p[0] == q[0] && q[1..] < p[1..] && p[1..][|q[1..]|] == p[|q|];
      PutAbove(Child(v, p[0]), p[1..], x, q[1..]);
    }
  }

  lemma {:induction false} AtOneMore(v: Value, path: seq<string>, k: string)
    ensures At(v, path + [k]) == Child(At(v, path), k)
    decreases path
  {
    if path != [] {
      assert (path + [k])[1..] == path[1..] + [k];
      AtOneMore(Child(v, path[0]), path[1..], k);
    }
  }

  lemma {:induction false} PutOneMore(v: Value, path: seq<string>, k: string, x: Value)
    ensures Put(v, path + [k], x) == Put(v, path, SetChild(At(v, path), k, x))
    decreases path
  {
    if path != [] {
      assert (path + [k])[1..] == path[1..] + [k];
      PutOneMore(Child(v, path[0]), path[1..], k, x);
    } else {
      assert (path + [k])[1..] == [];
    }
  }

  /** Setting a child that was just created is setting the child. */
  lemma TouchThenSet(v: Value, k: string, x: Value)
    ensures SetChild(Touch(v, k), k, x) == SetChild(v, k, x)
    ensures Child(Touch(v, k), k) == Child(v, k)
  {
    assert v.kids[k := Child(v, k)][k := x] == v.kids[k := x];
  }

  /** Creating empty children along a path is not seen by looking elsewhere. */
  lemma {:induction false} TouchElsewhere(v: Value, k: string, q: seq<string>)
    requires q != []
    ensures At(Touch(v, k), q) == At(v, q)
    ensures Touch(v, k).text == v.text && Touch(v, k).kids.Keys == v.kids.Keys + {k}
  {
  }

  /** rmval on a value */
  function Without(v: Value, k: string): Value {
    v.(kids := v.kids - {k})
  }

  lemma {:induction false} WithoutIsGone(v: Value, k: string, q: seq<string>)
    ensures At(Without(v, k), [k]) == EMPTY
    ensures q != [] && q[0] != k ==> At(Without(v, k), q) == At(v, q)
    ensures Without(v, k).text == v.text && Without(v, k).kids.Keys == v.kids.Keys - {k}
  {
    assert [k][1..] == [];
    assert At(EMPTY, []) == EMPTY;
  }

  /** The chain of values from a record down to the j-th below it, put together again:
      what the first of them becomes when the j-th is replaced by x. */
  function Fold(vs: seq<Value>, ks: seq<string>, j: nat, x: Value): Value
    requires j <= |vs| && j <= |ks|
  {
    if j == 0 then x else Fold(vs, ks, j - 1, SetChild(vs[j - 1], ks[j - 1], x))
  }

  lemma {:induction false} FoldFrame(vs: seq<Value>, vs': seq<Value>, ks: seq<string>, j: nat, x: Value)
    requires j <= |vs| && j <= |vs'| && j <= |ks| && vs[..j] == vs'[..j]
    ensures Fold(vs, ks, j, x) == Fold(vs', ks, j, x)
    decreases j
  {
    if j > 0 {
      assert vs[j - 1] == vs[..j][j - 1] == vs'[..j][j - 1] == vs'[j - 1];
      assert vs[..j - 1] == vs[..j][..j - 1] && vs'[..j - 1] == vs'[..j][..j - 1];
      FoldFrame(vs, vs', ks, j - 1, SetChild(vs[j - 1], ks[j - 1], x));
    }
  }

  /** The chain vs is what navigating to ks[..j] from v leaves: writing at its end and
      putting the chain together is writing into v. */
  ghost predicate Tracks(v: Value, vs: seq<Value>, ks: seq<string>, j: nat) {
    && j < |vs| && j <= |ks|
    && vs[j] == At(v, ks[..j])
    && forall x :: Folds(v, vs, ks, j, x)
  }

  ghost predicate Folds(v: Value, vs: seq<Value>, ks: seq<string>, j: nat, x: Value)
    requires j < |vs| && j <= |ks|
  {
    Fold(vs, ks, j, x) == Put(v, ks[..j], x)
  }

  lemma TracksLonger(v: Value, vs: seq<Value>, ks: seq<string>, k: string)
    requires Tracks(v, vs, ks, |ks|)
    ensures Tracks(v, vs, ks + [k], |ks|)
  {
    assert (ks + [k])[..|ks|] == ks == ks[..|ks|];
    forall x ensures Folds(v, vs, ks + [k], |ks|, x) {
      assert Folds(v, vs, ks, |ks|, x);
      FoldKeys(vs, ks, ks + [k], |ks|, x);
    }
  }

  lemma {:induction false} FoldKeys(vs: seq<Value>, ks: seq<string>, ks': seq<string>, j: nat, x: Value)
    requires j <= |vs| && j <= |ks| && ks <= ks'
    ensures Fold(vs, ks, j, x) == Fold(vs, ks', j, x)
    decreases j
  {
    if j > 0 { FoldKeys(vs, ks, ks', j - 1, SetChild(vs[j - 1], ks[j - 1], x)); }
  }

  /** One step down keeps that, although it creates the child in the value it leaves. */
  lemma TracksOneMore(v: Value, vs: seq<Value>, vs': seq<Value>, ks: seq<string>, j: nat)
    requires Tracks(v, vs, ks, j) && j < |ks| && |vs'| == j + 2
    requires vs'[..j] == vs[..j] && vs'[j] == Touch(vs[j], ks[j]) && vs'[j + 1] == Child(vs[j], ks[j])
    ensures Tracks(v, vs', ks, j + 1)
  {
    var k := ks[j];
    assert ks[..j + 1] == ks[..j] + [k];
    AtOneMore(v, ks[..j], k);
    var i := j + 1;
    forall x ensures Folds(v, vs', ks, i, x) {
      assert Folds(v, vs, ks, j, SetChild(vs[j], k, x));
      TouchThenSet(vs[j], k, x);
      FoldFrame(vs, vs', ks, j, SetChild(vs[j], k, x));
      PutOneMore(v, ks[..j], k, x);
    }
  }
}

module Records {
  import opened Wrappers
  import opened Values

  /** dbrecord. The parent of the root is null, records of the store are below the root,
      and what is below those are member variables. */
  class Record {
    const parent: Record?
    const id: string
    ghost const depth: nat
    var v: Value
    var changed: bool
    var create: bool
    var members: map<string, Record>

    constructor Root()
      ensures parent == null && depth == 0 && members == map[]
    {
      parent, id, depth := null, "", 0;
      v, changed, create, members := EMPTY, false, false, map[];
    }

    constructor (parent: Record, id: string)
      ensures this.parent == parent && this.id == id && depth == parent.depth + 1
      ensures v == EMPTY && !changed && !create && members == map[]
    {
      this.parent, this.id, depth := parent, id, parent.depth + 1;
      v, changed, create, members := EMPTY, false, false, map[];
    }

    ghost predicate Valid()
      reads this`members
    {
      forall k <- members :: members[k].parent == this && members[k].id == k && members[k].depth == depth + 1
    }

    /** operator[] below the root: the member, brought up to date with this record. */
    method Member(k: string) returns (r: Record)
      requires Valid() && parent != null
      modifies this`v, this`members, (if k in members then {members[k]} else {})`v
      ensures Valid() && k in members && members[k] == r && members == old(members)[k := r]
      ensures r.parent == this && r.id == k && r.depth == depth + 1
      ensures v == Touch(old(v), k) && r.v == Child(old(v), k)
      ensures k in old(members) ==> r == old(members[k])
      ensures k !in old(members) ==> fresh(r) && r.members == map[]
    {
      v := Touch(v, k);
      if k in members {
        r := members[k];
        r.v := v.kids[k];
        return;
      }
      r := new Record(this, k);
      r.v := v.kids[k];
      members := members[k := r];
    }

    /** rmval below the root: unlike an assignment it does not reach the records above. */
    method RemoveMember(k: string)
      requires parent != null
      modifies this`v, this`members, this`changed
      ensures v == Without(old(v), k) && members == map[] && changed
    {
      members := map[];
      v := Without(v, k);
      changed := true;
    }
  }

  /** The records from one below the root down to r. */
  ghost predicate Chain(root: Record, chain: seq<Record>, ks: seq<string>) {
    && chain != [] && |ks| + 1 == |chain|
    && root.parent == null && root.depth == 0
    && chain[0].parent == root && chain[0].depth == 1
    && forall i :: 0 < i < |chain| ==> chain[i].parent == chain[i - 1] && chain[i].id == ks[i - 1] && chain[i].depth == i + 1
  }

  lemma ChainLonger(root: Record, chain: seq<Record>, ks: seq<string>, m: Record, k: string)
    requires Chain(root, chain, ks) && m.parent == chain[|ks|] && m.id == k && m.depth == m.parent.depth + 1
    ensures Chain(root, chain + [m], ks + [k])
  {
  }

  lemma ChainApart(root: Record, chain: seq<Record>, ks: seq<string>)
    requires Chain(root, chain, ks)
    ensures |chain| == |ks| + 1 && chain[|ks|].depth == |ks| + 1
    ensures forall i :: 0 <= i < |ks| ==> chain[i] != chain[|ks|] && chain[i].depth != |ks| + 2
  {
  }

  lemma ChainAt(root: Record, chain: seq<Record>, ks: seq<string>, j: nat)
    requires Chain(root, chain, ks) && j < |chain|
    ensures |chain| == |ks| + 1 && root.parent == null && chain[j].parent != null
    ensures chain[j].parent == (if j == 0 then root else chain[j - 1]) && (j > 0 ==> chain[j].id == ks[j - 1])
  {
    if j > 0 { assert chain[j].parent == chain[j - 1]; }
  }

  lemma ChainDistinct(root: Record, chain: seq<Record>, ks: seq<string>)
    requires Chain(root, chain, ks)
    ensures forall i, j :: 0 <= i < j < |chain| ==> chain[i] != chain[j]
  {
    assert forall i :: 0 <= i < |chain| ==> chain[i].depth == i + 1;
  }

  ghost function ValuesOf(chain: seq<Record>): (vs: seq<Value>)
    reads chain
    ensures |vs| == |chain| && forall i :: 0 <= i < |vs| ==> vs[i] == chain[i].v
  {
    seq(|chain|, i requires 0 <= i < |chain| reads chain => chain[i].v)
  }

  /** fromvalue: assign, and carry the new value up to the record below the root. */
  method FromValue(r: Record, o: Value, ghost root: Record, ghost chain: seq<Record>, ghost ks: seq<string>)
    returns (res: Result<(), string>)
    requires (r == root && chain == []) || (chain != [] && Chain(root, chain, ks) && r == chain[|chain| - 1])
    requires root.parent == null
    modifies chain`v, chain`changed
    ensures r == root ==> res.Err?
    ensures r != root ==> res.Ok? && r.v == o && forall c <- chain :: c.changed
    ensures r != root ==> chain[0].v == Fold(old(ValuesOf(chain)), ks, |ks|, o)
  {
    hide Chain;
    if chain != [] { ChainAt(root, chain, ks, |chain| - 1); }
    if r.parent == null { return Err("assignment to root record prohibited"); }
    ChainDistinct(root, chain, ks);
    r.v := o;
    r.changed := true;
    Carry(r, o, root, chain, ks, old(ValuesOf(chain)));
    res := Ok(());
  }

  /** The loop of fromvalue. */
  method Carry(r: Record, ghost o: Value, ghost root: Record, ghost chain: seq<Record>, ghost ks: seq<string>,
      ghost vs: seq<Value>)
    requires |vs| == |chain| && forall i :: 0 <= i < |chain| - 1 ==> chain[i].v == vs[i]
    requires chain != [] && Chain(root, chain, ks) && r == chain[|chain| - 1] && r.v == o && r.changed
    modifies chain`v, chain`changed
    ensures r.v == o && forall c <- chain :: c.changed
    ensures |chain| == |ks| + 1 && chain[0].v == Fold(vs, ks, |ks|, o)
  {
    hide Chain;
    var crsr := r;
    ghost var j := |chain| - 1;
    ChainAt(root, chain, ks, j);
    ChainDistinct(root, chain, ks);
    while crsr.parent.parent != null
      invariant 0 <= j < |chain| && crsr == chain[j] && crsr.parent != null
      invariant crsr.parent == if j == 0 then root else chain[j - 1]
      invariant forall i :: j <= i < |chain| ==> chain[i].changed
      invariant forall i :: 0 <= i < j ==> chain[i].v == vs[i]
      invariant r.v == o && (j > 0 ==> crsr.id == ks[j - 1])
      invariant Fold(vs, ks, j, crsr.v) == Fold(vs, ks, |ks|, o)
      decreases j
    {
      assert j > 0;
      ChainAt(root, chain, ks, j - 1);
      crsr.parent.changed := true;
      crsr.parent.v := SetChild(crsr.parent.v, crsr.id, crsr.v);
      crsr := crsr.parent;
      j := j - 1;
    }
    assert j == 0 by {
      if j > 0 { ChainAt(root, chain, ks, j - 1); }
    }
  }

  /** The keys of a map, each once. */
  ghost predicate Lists<T>(order: seq<string>, m: map<string, T>) {
    && (forall k :: k in order <==> k in m)
    && (forall i, j :: 0 <= i < j < |order| ==> order[i] != order[j])
  }

  lemma ListsMore<T>(order: seq<string>, m: map<string, T>, k: string, x: T)
    requires Lists(order, m) && k !in m
    ensures Lists(order + [k], m[k := x])
  {
  }

  lemma {:induction false} OrderCount<T>(order: seq<string>, m: map<string, T>)
    requires Lists(order, m)
    ensures |order| == |m.Keys|
  {
    DistinctCount(order);
    assert m.Keys == set k | k in order;
  }

  lemma {:induction false} DistinctCount(order: seq<string>)
    requires forall i, j :: 0 <= i < j < |order| ==> order[i] != order[j]
    ensures |set k | k in order| == |order|
  {
    if order != [] {
      var n := |order| - 1;
      DistinctCount(order[..n]);
      assert (set k | k in order) == (set k | k in order[..n]) + {order[n]};
    }
  }

  /** A cache of these keys has no room for another one. */
  predicate Full(keys: set<string>, maxcache: nat) {
    0 < maxcache <= |keys|
  }

  /** The keys in the cache once one was asked for. */
  function KeysAfter(keys: set<string>, maxcache: nat, key: string): set<string> {
    if key in keys then keys else (if Full(keys, maxcache) then {} else keys) + {key}
  }

  /** dbfile with the gdbm layer below it. io says which writes of a commit the layer
      accepts; an insert of a key that is there is refused in any case. */
  class DbFile {
    const encode: Value -> string
    const decode: string -> Value
    var store: map<string, string>
    var dbopen: bool
    var maxcache: nat
    const root: Record
    var children: map<string, Record>
    var order: seq<string>               // the keys of children, oldest first
    ghost var live: set<Record>

    constructor (encode: Value -> string, decode: string -> Value, store: map<string, string>)
      ensures Valid() && this.encode == encode && this.decode == decode && this.store == store
      ensures children == map[] && dbopen && maxcache == 0
    {
      this.encode, this.decode, this.store, dbopen, maxcache := encode, decode, store, true, 0;
      root := new Record.Root();
      children, order, live := map[], [], {};
    }

    /** The records that may be reached from the cache. */
    ghost predicate LiveOk()
      reads this`live, live`members
    {
      root.parent == null && root.depth == 0 && root !in live
      && forall r <- live :: r.Valid() && r.parent != null && forall k <- r.members :: r.members[k] in live
    }

    /** create is set exactly for the records that the store does not have. */
    ghost predicate CacheOk()
      reads this`children, this`store, this`live, live`create
    {
      forall k <- children :: children[k] in live && children[k].parent == root && children[k].id == k
                              && children[k].depth == 1 && (children[k].create <==> k !in store)
    }

    ghost predicate Valid()
      reads this, live
    {
      LiveOk() && CacheOk() && Lists(order, children)
    }

    /** What a record holds, or would hold when it is asked for. */
    ghost function Held(k: string): Value
      requires Valid()
      reads this, live
    {
      if k in children then children[k].v else Stored(k)
    }

    /** What was committed. */
    ghost function Stored(k: string): Value
      reads this`store
    {
      if k in store then decode(store[k]) else EMPTY
    }

    /** The cache is cleared when it is full. */
    method MakeRoom()
      requires Valid()
      modifies this`children, this`order
      ensures Valid() && children == if Full(old(children).Keys, maxcache) then map[] else old(children)
    {
      OrderCount(order, children);
      if maxcache > 0 && |order| >= maxcache { children, order := map[], []; }
    }

    /** operator[] on the root. None is dbfileNotOpenException. */
    method Fetch(k: string) returns (r: Option<Record>)
      requires Valid()
      modifies this`children, this`order, this`live
      ensures Valid()
      ensures k in old(children) ==> r == Some(old(children[k])) && children == old(children)
      ensures r == None <==> k !in old(children) && !dbopen
      ensures k !in old(children) && dbopen ==>
        && fresh(r.value) && r.value.v == old(Held(k)) && r.value.members == map[]
        && children == (if Full(old(children).Keys, maxcache) then map[] else old(children))[k := r.value]
      ensures r.Some? ==> children.Keys == KeysAfter(old(children).Keys, maxcache, k)
      ensures live >= old(live) && fresh(live - old(live))
    {
      hide LiveOk, Lists;
      if k in children { return Some(children[k]); }
      MakeRoom();
      if !dbopen { return None; }
      var n := Load(k);
      r := Some(n);
    }

    method Make(k: string) returns (n: Record)
      ensures fresh(n) && n.parent == root && n.id == k && n.depth == root.depth + 1 && n.Valid()
      ensures n.v == (if k in store then decode(store[k]) else EMPTY) && (n.create <==> k !in store)
      ensures n.members == map[] && !n.changed
    {
      n := new Record(root, k);
      if k in store { n.v := decode(store[k]); } else { n.create := true; }
    }

    /** A record that is not cached: from the store, or marked as new. */
    method Load(k: string) returns (n: Record)
      requires Valid() && k !in children
      modifies this`children, this`order, this`live
      ensures Valid() && fresh(n) && children == old(children)[k := n] && order == old(order) + [k]
      ensures n.v == old(Held(k)) && n.members == map[] && !n.changed
      ensures live == old(live) + {n}
    {
      hide Lists, Record.Valid;
      n := Make(k);
      ListsMore(order, children, k, n);
      children, order, live := children[k := n], order + [k], live + {n};
    }

    /** The chain leads from the record of key down a path, when that record held v. */
    ghost predicate Reached(key: string, v: Value, path: seq<string>, chain: seq<Record>)
      reads this, live, chain
    {
      && Valid() && key in children && Chain(root, chain, path)
      && |chain| == |path| + 1 && chain[0] == children[key] && (forall c <- chain :: c in live)
      && Tracks(v, ValuesOf(chain), path, |path|)
      && chain[0].v == (if path == [] then v else Touch(v, path[0]))
    }

    /** One more operator[]. */
    method Down(r: Record, k: string, ghost key: string, ghost v: Value, ghost path: seq<string>, ghost chain: seq<Record>)
      returns (m: Record)
      requires Reached(key, v, path, chain) && r == chain[|path|]
      modifies this`live, live`v, live`members
      ensures Reached(key, v, path + [k], chain + [m])
      ensures forall k' <- children :: k' != key ==> children[k'].v == old(children[k'].v)
      ensures live >= old(live) && fresh(live - old(live))
    {
      hide Tracks, Lists, Chain, LiveOk, CacheOk;
      ghost var vs := ValuesOf(chain);
      ChainApart(root, chain, path);
      OthersAreElsewhere(key, path, chain);
      m := Grow(r, k);
      ChainLonger(root, chain, path, m, k);
      TracksLonger(v, vs, path, k);
      TracksOneMore(v, vs, ValuesOf(chain + [m]), path + [k], |path|);
    }

    /** operator[] below the root, with what it leaves alone. */
    method Grow(r: Record, k: string) returns (m: Record)
      requires Valid() && r in live
      modifies this`live, live`v, live`members
      ensures Valid() && live == old(live) + {m} && (m in old(live) || fresh(m))
      ensures m.parent == r && m.id == k && m.depth == r.depth + 1
      ensures r.v == Touch(old(r.v), k) && m.v == Child(old(r.v), k)
      ensures forall o <- old(live) :: o != r && o != m ==> o.v == old(o.v)
    {
      hide Lists;
      m := r.Member(k);
      live := live + {m};
    }

    lemma OthersAreElsewhere(key: string, path: seq<string>, chain: seq<Record>)
      requires CacheOk() && key in children && Chain(root, chain, path) && |chain| == |path| + 1 && chain[0] == children[key]
      ensures forall k <- children :: children[k] in live && children[k].depth == 1 && (k != key ==> children[k] != chain[|path|])
    {
    }

    lemma Begin(key: string, v: Value, r: Record)
      requires Valid() && key in children && children[key] == r && r.v == v
      ensures Reached(key, v, [], [r])
    {
      assert forall x :: Fold(ValuesOf([r]), [], 0, x) == Put(v, [], x);
    }

    /** db[key][path[0]][path[1]]... */
    method Navigate(key: string, path: seq<string>) returns (r: Option<Record>, ghost chain: seq<Record>)
      requires Valid()
      modifies this`children, this`order, this`live, live`v, live`members
      ensures Valid()
      ensures r == None <==> key !in old(children) && !dbopen
      ensures r.Some? ==> Reached(key, old(Held(key)), path, chain) && r.value == chain[|path|]
      ensures r.Some? ==> forall k <- children :: k != key ==> k in old(children) && children[k].v == old(children[k].v)
      ensures r.Some? ==> children.Keys == KeysAfter(old(children).Keys, maxcache, key)
      ensures live >= old(live) && fresh(live - old(live))
    {
      hide LiveOk, CacheOk, Lists, Tracks, Chain, KeysAfter, Full;
      ghost var v := Held(key);
      r := Fetch(key);
      if r == None { return r, []; }
      Begin(key, v, r.value);
      ghost var cached := children;
      chain := [r.value];
      var i := 0;
      assert path[..0] == [];
      while i < |path|
        invariant i <= |path| && r.Some? && children == cached
        invariant Reached(key, v, path[..i], chain) && r.value == chain[i]
        invariant forall k <- children :: k != key ==> k in old(children) && children[k].v == old(children[k].v)
        invariant live >= old(live) && fresh(live - old(live))
      {
        assert path[..i + 1] == path[..i] + [path[i]];
        var m := Down(r.value, path[i], key, v, path[..i], chain);
        chain, r, i := chain + [m], Some(m), i + 1;
      }
      assert path[..i] == path;
    }

    /** db[key][path[0]]... = o. Every record from the one of key down is marked changed. */
    method Write(key: string, path: seq<string>, o: Value) returns (ok: bool, ghost chain: seq<Record>)
      requires Valid()
      modifies this`children, this`order, this`live, live`v, live`members, live`changed
      ensures Valid()
      ensures ok <==> key in old(children) || dbopen
      ensures ok ==>
        && key in children && Chain(root, chain, path) && chain[0] == children[key]
        && children[key].v == Put(old(Held(key)), path, o) && (forall c <- chain :: c.changed)
        && forall k <- children :: k != key ==> k in old(children) && children[k].v == old(children[k].v)
      ensures ok ==> children.Keys == KeysAfter(old(children).Keys, maxcache, key)
      ensures live >= old(live) && fresh(live - old(live))
    {
      hide Lists, LiveOk, Tracks;
      var r;
      r, chain := Navigate(key, path);
      if r == None { return false, chain; }
      ghost var vs := ValuesOf(chain);
      TracksPut(old(Held(key)), vs, path, o);
      OnlyFirst(key, path, chain);
      var res := FromValue(r.value, o, root, chain, path);
      ok := true;
    }

    /** db[key][path[0]]... .rmval (k) */
    method RemoveAt(key: string, path: seq<string>, k: string) returns (ok: bool)
      requires Valid()
      modifies this`children, this`order, this`live, live`v, live`members, live`changed
      ensures Valid()
      ensures ok <==> key in old(children) || dbopen
      ensures ok ==> key in children
      ensures ok ==> children[key].v == (if path == [] then Without(old(Held(key)), k) else Touch(old(Held(key)), path[0]))
      ensures live >= old(live) && fresh(live - old(live))
    {
      hide Lists, Tracks, Chain, LiveOk, CacheOk;
      var r, chain := Navigate(key, path);
      if r == None { return false; }
      ChainApart(root, chain, path);
      RemoveFrom(r.value, k);
      ok := true;
    }

    method RemoveFrom(r: Record, k: string)
      requires Valid() && r in live
      modifies r`v, r`members, r`changed
      ensures Valid() && r.v == Without(old(r.v), k)
    {
      hide Lists;
      r.RemoveMember(k);
    }

    /** Of the records on a chain only the first is one that the root holds. */
    lemma OnlyFirst(key: string, path: seq<string>, chain: seq<Record>)
      requires CacheOk() && key in children && Chain(root, chain, path) && chain[0] == children[key]
      ensures forall k <- children :: k != key ==> children[k] !in chain
      ensures root !in chain
    {
    }

    /** The text below db[key][path[0]]... Reading creates the first member it goes through. */
    method Read(key: string, path: seq<string>) returns (v: Option<Value>)
      requires Valid()
      modifies this`children, this`order, this`live, live`v, live`members
      ensures Valid()
      ensures v == if key in old(children) || dbopen then Some(At(old(Held(key)), path)) else None
      ensures v.Some? ==>
        && key in children
        && children[key].v == (if path == [] then old(Held(key)) else Touch(old(Held(key)), path[0]))
        && forall k <- children :: k != key ==> k in old(children) && children[k].v == old(children[k].v)
      ensures live >= old(live) && fresh(live - old(live))
    {
      var r, chain := Navigate(key, path);
      if r == None { return None; }
      assert path[..|path|] == path;
      v := Some(r.value.v);
    }

    /** gdbmfile::setrecord: None when the file is not open. */
    method SetRecord(id: string, data: string, create: bool, accepted: bool) returns (ok: Option<bool>)
      modifies this`store
      ensures ok == if !dbopen then None else Some(accepted && !(create && id in old(store)))
      ensures store == if ok == Some(true) then old(store)[id := data] else old(store)
    {
      if !dbopen { return None; }
      if create && id in store { return Some(false); }
      if accepted { store := store[id := data]; }
      ok := Some(accepted);
    }

    /** What commit would write for each cached record. */
    ghost function Encodings(): (m: map<string, string>)
      requires CacheOk()
      reads this`children, this`store, this`live, live`v, live`create
      ensures m.Keys == children.Keys && forall k <- children :: m[k] == encode(children[k].v)
    {
      map k | k in children :: encode(children[k].v)
    }

    /** One round of commit. An insert finds its key absent, because create is right. */
    method CommitOne(k: string, r: Record, accepted: bool) returns (ok: Option<bool>)
      requires Valid() && k in children && children[k] == r
      modifies this`store, r`changed, r`create, r`members
      ensures Valid() && ok == if dbopen then Some(accepted) else None
      ensures store == if ok == Some(true) then old(store)[k := old(Encodings())[k]] else old(store)
      ensures ok == Some(true) ==> !r.changed && r.members == map[]
    {
      hide Lists;
      ok := SetRecord(r.id, encode(r.v), r.create, accepted);
      if ok != Some(true) { return; }
      r.changed, r.create, r.members := false, false, map[];
    }

    lemma CachedAreLive()
      requires CacheOk()
      ensures forall k <- children :: children[k] in live
      ensures forall k <- children, k' <- children :: k != k' ==> children[k] != children[k']
    {
      assert forall k <- children :: children[k].id == k;
    }

    ghost predicate Clean(done: seq<string>)
      requires forall k <- children :: children[k] in live
      reads this`children, this`live, live`changed, live`members
    {
      forall k <- done :: k in children && !children[k].changed && children[k].members == map[]
    }

    /** commit: n records are written, up to the first write that is refused. No write is
        refused because its record is there already. */
    method Commit(refused: set<nat>) returns (ok: Option<bool>, ghost n: nat)
      requires Valid()
      modifies this`store, live`changed, live`create, live`members
      ensures Valid() && n <= |order| && Clean(order[..n])
      ensures Flushed(old(store), old(Encodings()), order[..n], store)
      ensures n == |order| ==> ok == Some(true)
      ensures n < |order| ==> ok == (if dbopen then Some(false) else None) && (dbopen ==> n in refused)
      ensures (n > 0 ==> dbopen) && forall i :: 0 <= i < n ==> i !in refused
    {
      hide LiveOk, Lists, Flushed, CacheOk;
      ghost var s, enc := store, Encodings();
      NothingFlushed(s, enc);
      CachedAreLive();
      assert order[..0] == [];
      n := 0;
      var i := 0;
      while i < |order|
        invariant Valid() && i == n <= |order| && Clean(order[..n])
        invariant Flushed(s, enc, order[..n], store) && Encodings() == enc
        invariant (n > 0 ==> dbopen) && forall j :: 0 <= j < n ==> j !in refused
      {
        OrderHasNoRepeats(order, children, i);
        assert order[..i + 1] == order[..i] + [order[i]];
        FlushedMore(s, enc, order[..i], store, order[i]);
        ok := CommitOne(order[i], children[order[i]], i !in refused);
        if ok != Some(true) { return; }
        i, n := i + 1, n + 1;
      }
      ok := Some(true);
    }

    /** dbfile::rmval. What was cached and not committed goes with the record. */
    method Remove(id: string, accepted: bool) returns (ok: Option<bool>)
      requires Valid()
      modifies this`store, this`children, this`order
      ensures Valid()
      ensures ok == if !dbopen then None else Some(id in old(store) && accepted)
      ensures store == if ok == Some(true) then old(store) - {id} else old(store)
      ensures children == if ok == Some(true) then map[] else old(children)
    {
      if !dbopen { return None; }
      if id !in store || !accepted { return Some(false); }
      store := store - {id};
      ClearCache();
      ok := Some(true);
    }

    method ClearCache()
      requires LiveOk()
      modifies this`children, this`order
      ensures Valid() && children == map[] && order == []
    {
      children, order := map[], [];
    }
  }

  lemma {:induction false} TracksPut(v: Value, vs: seq<Value>, ks: seq<string>, x: Value)
    requires Tracks(v, vs, ks, |ks|)
    ensures Fold(vs, ks, |ks|, x) == Put(v, ks, x)
  {
    assert ks[..|ks|] == ks && Folds(v, vs, ks, |ks|, x);
  }

  /** The store s', made from s by writing the encodings of the records done. */
  ghost predicate Flushed(s: map<string, string>, enc: map<string, string>, done: seq<string>, s': map<string, string>) {
    && (forall k :: k in s' <==> k in s || k in done)
    && (forall k <- done :: k in enc && k in s' && s'[k] == enc[k])
    && (forall k <- s' :: k !in done ==> s'[k] == s[k])
  }

  lemma NothingFlushed(s: map<string, string>, enc: map<string, string>)
    ensures Flushed(s, enc, [], s)
  {
  }

  lemma FlushedMore(s: map<string, string>, enc: map<string, string>, done: seq<string>, s': map<string, string>, k: string)
    requires Flushed(s, enc, done, s') && k in enc
    ensures Flushed(s, enc, done + [k], s'[k := enc[k]])
  {
  }

  lemma OrderHasNoRepeats<T>(order: seq<string>, m: map<string, T>, i: nat)
    requires Lists(order, m) && i < |order|
    ensures order[i] in m && order[i] !in order[..i]
  {
  }

  lemma OrderIsAll<T>(order: seq<string>, m: map<string, T>, k: string)
    requires Lists(order, m) && k in m
    ensures k in order
  {
  }

  lemma FlushedAt(s: map<string, string>, enc: map<string, string>, done: seq<string>, s': map<string, string>, k: string)
    requires Flushed(s, enc, done, s') && k in done
    ensures k in enc && k in s' && s'[k] == enc[k]
  {
  }

  /** What was written at a path is read back by navigating again, and what is at any path
      neither above nor below it is as before. */
  method WriteThenRead(db: DbFile, key: string, path: seq<string>, o: Value, q: seq<string>)
    returns (same: Option<Value>, other: Option<Value>)
    requires db.Valid() && (db.dbopen || key in db.children) && Disjoint(path, q)
    modifies db, db.live
    ensures db.Valid() && same == Some(o) && other == Some(At(old(db.Held(key)), q))
  {
    var ok, chain := db.Write(key, path, o);
    same := db.Read(key, path);
    PutThenAt(old(db.Held(key)), path, o);
    PutElsewhere(old(db.Held(key)), path, o, q);
    TouchElsewhere(Put(old(db.Held(key)), path, o), if path == [] then "" else path[0], q);
    other := db.Read(key, q);
  }

  /** A removed member is gone for the next reader if it was removed from the record itself;
      below that it is still there. */
  method RemoveThenRead(db: DbFile, key: string, path: seq<string>, k: string) returns (left: Option<Value>)
    requires db.Valid() && (db.dbopen || key in db.children)
    modifies db, db.live
    ensures db.Valid() && left == Some(if path == [] then EMPTY else At(old(db.Held(key)), path + [k]))
  {
    WithoutIsGone(db.Held(key), k, []);
    if path != [] { TouchElsewhere(db.Held(key), path[0], path + [k]); }
    assert path == [] ==> path + [k] == [k];
    var ok := db.RemoveAt(key, path, k);
    left := db.Read(key, path + [k]);
  }

  /** After a commit that is not refused anywhere, clearing the cache loses nothing that the
      encoding keeps. */
  method CommitThenReload(db: DbFile, key: string, path: seq<string>) returns (v: Option<Value>)
    requires db.Valid() && db.dbopen && key in db.children
    requires db.decode(db.encode(db.children[key].v)) == db.children[key].v
    modifies db, db.live
    ensures db.Valid() && v == Some(At(old(db.children[key].v), path))
  {
    hide DbFile.LiveOk, Lists, Flushed, At;
    ghost var held, enc, before := db.children[key].v, db.Encodings(), db.store;
    var ok, n := db.Commit({});
    assert db.order[..n] == db.order;
    OrderIsAll(db.order, db.children, key);
    FlushedAt(before, enc, db.order, db.store, key);
    db.ClearCache();
    assert db.Held(key) == held;
    v := db.Read(key, path);
  }

  method WriteThenLook(db: DbFile, key: string, path: seq<string>, o: Value, other: string) returns (v: Option<Value>)
    requires db.Valid() && db.dbopen
    modifies db, db.live
    ensures var keys := KeysAfter(old(db.children).Keys, db.maxcache, key);
      && db.Valid() && db.maxcache == old(db.maxcache)
      && v == Some(if other !in keys && Full(keys, db.maxcache) then At(old(db.Stored(key)), path) else o)
  {
    hide DbFile.LiveOk, DbFile.CacheOk, Lists, KeysAfter, Full;
    PutThenAt(db.Held(key), path, o);
    ghost var stored := db.Stored(key);
    var ok, chain := db.Write(key, path, o);
    ghost var keys, written := db.children.Keys, db.children[key].v;
    var r := db.Fetch(other);
    KeysAfterOne(keys, db.maxcache, key, other);
    assert db.Held(key) == if other !in keys && Full(keys, db.maxcache) then stored else written;
    v := db.Read(key, path);
  }

  /** A bounded cache drops what was not committed: after a write, asking for another record
      undoes it if and only if that record is not cached and the cache is full by then. */
  method WriteThenEvict(db: DbFile, key: string, path: seq<string>, o: Value, other: string) returns (v: Option<Value>)
    requires db.Valid() && db.dbopen
    modifies db, db.live
    ensures var had, max := old(db.children).Keys, db.maxcache;
      var keys := if key in had then had else if 0 < max <= |had| then {key} else had + {key};
      && db.Valid()
      && v == Some(if other !in keys && 0 < max <= |keys| then At(old(db.Stored(key)), path) else o)
  {
    KeysAfterAre(db.children.Keys, db.maxcache, key);
    hide DbFile.LiveOk, DbFile.CacheOk, Lists;
    v := WriteThenLook(db, key, path, o, other);
  }

  lemma KeysAfterOne(keys: set<string>, maxcache: nat, key: string, other: string)
    requires key in keys
    ensures key in KeysAfter(keys, maxcache, other) <==> !(other !in keys && Full(keys, maxcache))
  {
  }

  lemma KeysAfterAre(had: set<string>, max: nat, key: string)
    ensures KeysAfter(had, max, key) == if key in had then had else if 0 < max <= |had| then {key} else had + {key}
  {
  }
}
