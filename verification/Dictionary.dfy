/**
 The keyed dictionary of include/grace/dictionary.h: an insertion-ordered array of
 entries that are threaded, in place, into a binary search tree on their hash keys.

 The tree a dictionary should hold is written down as a value (SearchTree), built from
 the ids of the array in array order. Linked says that the lower and higher fields found
 in memory spell exactly that tree.
 */
module SearchTrees {
  import opened Wrappers

  /** A statstring: the checksum of its text and the serial number of the text.
      Two statstrings are equal when both parts are. */
  datatype Id = Id(key: nat, serial: nat)

  datatype Tree = Leaf | Node(id: Id, lower: Tree, higher: Tree)

  ghost function Ids(t: Tree): set<Id> {
    match t
    case Leaf => {}
    case Node(id, l, h) => {id} + Ids(l) + Ids(h)
  }

  /** Where a new id goes: strictly larger keys go to higher, all others to lower. */
  function Insert(t: Tree, id: Id): Tree {
    match t
    case Leaf => Node(id, Leaf, Leaf)
    case Node(top, l, h) =>
      if top.key < id.key then Node(top, l, Insert(h, id)) else Node(top, Insert(l, id), h)
  }

  /** The tree made by inserting the ids one by one, from left to right. */
  function Build(ids: seq<Id>): Tree {
    if ids == [] then Leaf else Insert(Build(ids[..|ids| - 1]), ids[|ids| - 1])
  }

  /** The walk that exists and demand make. */
  predicate Finds(t: Tree, id: Id) {
    match t
    case Leaf => false
    case Node(top, l, h) =>
      top == id || if top.key < id.key then Finds(h, id) else Finds(l, id)
  }

  /** The node, and the side of it (true: higher), below which a new id is hung. */
  function Slot(t: Tree, id: Id): (Id, bool)
    requires t.Node?
  {
    if t.id.key < id.key then
      if t.higher.Leaf? then (t.id, true) else Slot(t.higher, id)
    else
      if t.lower.Leaf? then (t.id, false) else Slot(t.lower, id)
  }

  ghost predicate Ordered(t: Tree) {
    match t
    case Leaf => true
    case Node(top, l, h) =>
      && Ordered(l) && Ordered(h)
      && (forall id <- Ids(l) :: id.key <= top.key)
      && (forall id <- Ids(h) :: top.key < id.key)
  }

  /** No id sits at two places of the tree. */
  ghost predicate OncePerId(t: Tree) {
    match t
    case Leaf => true
    case Node(top, l, h) =>
      && OncePerId(l) && OncePerId(h)
      && top !in Ids(l) && top !in Ids(h) && Ids(l) !! Ids(h)
  }

  predicate NoRepeats(ids: seq<Id>) {
    forall i, j :: 0 <= i < j < |ids| ==> ids[i] != ids[j]
  }

  lemma NoRepeatsAtEnd(ids: seq<Id>, n: Id)
    ensures NoRepeats(ids + [n]) <==> NoRepeats(ids) && n !in ids
  {
    var more := ids + [n];
    if NoRepeats(more) {
      forall i | 0 <= i < |ids| ensures ids[i] != n { assert more[i] != more[|ids|]; }
      forall i, j | 0 <= i < j < |ids| ensures ids[i] != ids[j] { assert more[i] != more[j]; }
    }
  }

  lemma NoRepeatsWithout(ids: seq<Id>, i: nat)
    requires NoRepeats(ids) && i < |ids|
    ensures NoRepeats(ids[..i] + ids[i + 1..])
    ensures ids[i] !in ids[..i] + ids[i + 1..]
  {
    var rest := ids[..i] + ids[i + 1..];
    forall j | 0 <= j < |rest| ensures rest[j] != ids[i] {
      assert rest[j] == ids[if j < i then j else j + 1];
    }
  }

  lemma NoRepeatsInPrefix(ids: seq<Id>, j: nat)
    requires NoRepeats(ids) && j < |ids|
    ensures NoRepeats(ids[..j]) && ids[j] !in ids[..j]
  {
    assert forall i :: 0 <= i < j ==> ids[i] != ids[j];
  }

  lemma {:induction false} InsertIds(t: Tree, id: Id)
    ensures Ids(Insert(t, id)) == Ids(t) + {id}
    ensures Ordered(t) ==> Ordered(Insert(t, id))
    ensures OncePerId(t) && id !in Ids(t) ==> OncePerId(Insert(t, id))
  {
    match t
    case Leaf =>
    case Node(top, l, h) =>
      InsertIds(l, id);
      InsertIds(h, id);
  }

  /** The tree of an array holds the ids of the array, each once, in search order. */
  lemma {:induction false} BuildIsSearchTree(ids: seq<Id>)
    ensures forall id :: id in Ids(Build(ids)) <==> id in ids
    ensures Ordered(Build(ids))
    ensures NoRepeats(ids) ==> OncePerId(Build(ids))
  {
    if ids != [] {
      var front, last := ids[..|ids| - 1], ids[|ids| - 1];
      BuildIsSearchTree(front);
      InsertIds(Build(front), last);
      assert ids == front + [last];
      NoRepeatsAtEnd(front, last);
    }
  }

  /** On a search tree one walk from the root decides membership, even when several ids
      share a key. */
  lemma {:induction false} WalkFindsMembers(t: Tree, id: Id)
    requires Ordered(t)
    ensures Finds(t, id) <==> id in Ids(t)
  {
    match t
    case Leaf =>
    case Node(top, l, h) =>
      WalkFindsMembers(l, id);
      WalkFindsMembers(h, id);
  }

  lemma {:induction false} WalkDecidesMembership(ids: seq<Id>, id: Id)
    ensures Finds(Build(ids), id) <==> id in ids
  {
    BuildIsSearchTree(ids);
    WalkFindsMembers(Build(ids), id);
  }

  lemma {:induction false} SlotIsInTree(t: Tree, id: Id)
    requires t.Node?
    ensures Slot(t, id).0 in Ids(t)
  {
    if t.id.key < id.key {
      if t.higher.Node? { SlotIsInTree(t.higher, id); }
    } else {
      if t.lower.Node? { SlotIsInTree(t.lower, id); }
    }
  }

  /** The two links of a node in memory, as the ids they lead to. */
  datatype Link = Link(lower: Option<Id>, higher: Option<Id>)

  const UNLINKED := Link(None, None)

  /** Following the links m from top spells the tree t. */
  ghost predicate Spells(t: Tree, top: Option<Id>, m: map<Id, Link>) {
    match t
    case Leaf => top == None
    case Node(id, l, h) =>
      top == Some(id) && id in m && Spells(l, m[id].lower, m) && Spells(h, m[id].higher, m)
  }

  /** Only the links of the ids inside a tree matter to it. */
  lemma {:induction false} SpellsFrame(t: Tree, top: Option<Id>, m: map<Id, Link>, m': map<Id, Link>)
    requires Spells(t, top, m)
    requires forall id <- Ids(t) :: id in m ==> id in m' && m'[id] == m[id]
    ensures Spells(t, top, m')
  {
    match t
    case Leaf =>
    case Node(id, l, h) =>
      SpellsFrame(l, m[id].lower, m, m');
      SpellsFrame(h, m[id].higher, m, m');
  }

  /** The links after the leaf n is hung below c. */
  function Hang(m: map<Id, Link>, c: Id, onHigher: bool, n: Id): map<Id, Link>
    requires c in m
  {
    m[c := if onHigher then m[c].(higher := Some(n)) else m[c].(lower := Some(n))][n := UNLINKED]
  }

  /** Hanging a new leaf at its slot, the one pointer write of demand, is insertion. */
  lemma {:induction false} HangingIsInsertion(t: Tree, top: Option<Id>, m: map<Id, Link>, n: Id)
    requires t.Node? && Spells(t, top, m) && OncePerId(t) && n !in Ids(t)
    ensures Slot(t, n).0 in m
    ensures Spells(Insert(t, n), top, Hang(m, Slot(t, n).0, Slot(t, n).1, n))
  {
    SlotIsInTree(t, n);
    SlotIsLinked(t, top, m, n);
    var (c, onHigher) := Slot(t, n);
    var m' := Hang(m, c, onHigher, n);
    if t.id.key < n.key {
      if t.higher.Node? {
        SlotIsInTree(t.higher, n);
        HangingIsInsertion(t.higher, m[t.id].higher, m, n);
      }
      SpellsFrame(t.lower, m[t.id].lower, m, m');
    } else {
      if t.lower.Node? {
        SlotIsInTree(t.lower, n);
        HangingIsInsertion(t.lower, m[t.id].lower, m, n);
      }
      SpellsFrame(t.higher, m[t.id].higher, m, m');
    }
  }

  lemma {:induction false} SlotIsLinked(t: Tree, top: Option<Id>, m: map<Id, Link>, n: Id)
    requires t.Node? && Spells(t, top, m)
    ensures Slot(t, n).0 in m
  {
    if t.id.key < n.key {
      if t.higher.Node? { SlotIsLinked(t.higher, m[t.id].higher, m, n); }
    } else {
      if t.lower.Node? { SlotIsLinked(t.lower, m[t.id].lower, m, n); }
    }
  }
}

module Dictionaries {
  import opened Wrappers
  import opened SearchTrees

  /** dictionaryEntry. The id is set once; ent is None while no object is attached. */
  class Entry<V> {
    const id: Id
    var ent: Option<V>
    var lower: Entry?<V>
    var higher: Entry?<V>

    constructor (id: Id, ent: Option<V>)
      ensures this.id == id && this.ent == ent && lower == null && higher == null
    {
      this.id, this.ent, lower, higher := id, ent, null, null;
    }
  }

  function IdOf<V>(e: Entry?<V>): Option<Id> {
    if e == null then None else Some(e.id)
  }

  /** The links m spell the tree of the array's ids. */
  ghost predicate InStep(ids: seq<Id>, m: map<Id, Link>) {
    NoRepeats(ids) && (ids != [] ==> Spells(Build(ids), Some(ids[0]), m))
  }

  ghost predicate Named<V>(es: seq<Entry<V>>, ids: seq<Id>) {
    |es| == |ids| && forall i :: 0 <= i < |es| ==> es[i].id == ids[i]
  }

  /** The link fields found in memory are those of m, and lead to entries among es. */
  ghost predicate Shows<V>(es: seq<Entry<V>>, m: map<Id, Link>)
    reads es`lower, es`higher
  {
    forall e <- es ::
      && e.id in m && m[e.id] == Link(IdOf(e.lower), IdOf(e.higher))
      && (e.lower != null ==> e.lower in es) && (e.higher != null ==> e.higher in es)
  }

  lemma {:induction false} SameIdSameEntry<V>(es: seq<Entry<V>>, ids: seq<Id>, m: map<Id, Link>, c: Entry<V>)
    requires Named(es, ids) && InStep(ids, m) && c in es
    ensures forall o <- es :: o.id == c.id ==> o == c
  {
    forall o <- es | o.id == c.id ensures o == c {
      var i :| 0 <= i < |es| && es[i] == o;
      var j :| 0 <= j < |es| && es[j] == c;
      assert i < j || j < i || o == c;
    }
  }

  lemma {:induction false} HangKeepsStep(ids: seq<Id>, m: map<Id, Link>, c: Id, onHigher: bool, n: Id)
    requires ids != [] && InStep(ids, m) && n !in ids
    requires Slot(Build(ids), n) == (c, onHigher)
    ensures c in m && InStep(ids + [n], Hang(m, c, onHigher, n))
  {
    assert (ids + [n])[..|ids|] == ids;
    NoRepeatsAtEnd(ids, n);
    BuildIsSearchTree(ids);
    HangingIsInsertion(Build(ids), Some(ids[0]), m, n);
  }

  lemma AloneIsLinked<V>(e: Entry<V>)
    requires e.lower == null && e.higher == null
    ensures InStep([e.id], map[e.id := UNLINKED]) && Shows([e], map[e.id := UNLINKED])
  {
    assert [e.id][..0] == [];
  }

  /** The one pointer write that hangs n below crsr brings the tree in step with the
      array that is longer by n. */
  method HangBelow<V>(crsr: Entry<V>, onHigher: bool, n: Entry<V>,
                      ghost es: seq<Entry<V>>, ghost ids: seq<Id>, ghost m: map<Id, Link>)
    returns (ghost m': map<Id, Link>)
    requires Named(es, ids) && InStep(ids, m) && Shows(es, m)
    requires crsr in es && n !in es && n.id !in ids
    requires Slot(Build(ids), n.id) == (crsr.id, onHigher)
    requires n.lower == null && n.higher == null
    modifies crsr`lower, crsr`higher
    ensures InStep(ids + [n.id], m') && Shows(es + [n], m')
  {
    if onHigher { crsr.higher := n; } else { crsr.lower := n; }
    SameIdSameEntry(es, ids, m, crsr);
    HangKeepsStep(ids, m, crsr.id, onHigher, n.id);
    m' := Hang(m, crsr.id, onHigher, n.id);
  }

  /** The descent of the rebuild in remove, which compares keys only. */
  method DescendByKey<V>(root: Entry<V>, n: Id, ghost es: seq<Entry<V>>, ghost ids: seq<Id>, ghost m: map<Id, Link>)
    returns (c: Entry<V>, onHigher: bool)
    requires es != [] && root == es[0] && Named(es, ids) && InStep(ids, m) && Shows(es, m)
    ensures c in es && Slot(Build(ids), n) == (c.id, onHigher)
  {
    c := root;
    ghost var sub := Build(ids);
    while true
      invariant c in es && sub.Node? && Spells(sub, Some(c.id), m)
      invariant Slot(sub, n) == Slot(Build(ids), n)
      decreases sub
    {
      if c.id.key < n.key {
        if c.higher == null { return c, true; }
        c, sub := c.higher, sub.higher;
      } else {
        if c.lower == null { return c, false; }
        c, sub := c.lower, sub.lower;
      }
    }
  }

  /** One round of that rebuild: n, whatever links it still holds, joins the tree of es. */
  method LinkIn<V>(root: Entry<V>, n: Entry<V>, ghost es: seq<Entry<V>>, ghost ids: seq<Id>, ghost m: map<Id, Link>)
    returns (ghost m': map<Id, Link>)
    requires es != [] && root == es[0] && Named(es, ids) && InStep(ids, m) && Shows(es, m)
    requires n !in es && n.id !in ids
    modifies n`lower, n`higher, es`lower, es`higher
    ensures InStep(ids + [n.id], m') && Shows(es + [n], m')
  {
    hide InStep;
    n.lower, n.higher := null, null;
    var c, onHigher := DescendByKey(root, n.id, es, ids, m);
    m' := HangBelow(c, onHigher, n, es, ids, m);
  }

  /** What callers see: ids and objects in the order of first insertion. */
  function Find<V>(c: seq<(Id, V)>, id: Id): (r: Option<V>) {
    if c == [] then None else if c[0].0 == id then Some(c[0].1) else Find(c[1..], id)
  }

  ghost predicate Has<V>(c: seq<(Id, V)>, id: Id) {
    exists p <- c :: p.0 == id
  }

  /** Setting an id keeps its place, or appends it. */
  function Put<V>(c: seq<(Id, V)>, id: Id, v: V): seq<(Id, V)> {
    if c == [] then [(id, v)]
    else if c[0].0 == id then [(id, v)] + c[1..]
    else [c[0]] + Put(c[1..], id, v)
  }

  function Drop<V>(c: seq<(Id, V)>, id: Id): seq<(Id, V)> {
    if c == [] then [] else if c[0].0 == id then c[1..] else [c[0]] + Drop(c[1..], id)
  }

  ghost predicate FirstAt<V>(c: seq<(Id, V)>, i: nat) {
    i < |c| && forall j :: 0 <= j < i ==> c[j].0 != c[i].0
  }

  lemma {:induction false} PutAtPlace<V>(c: seq<(Id, V)>, i: nat, v: V)
    requires FirstAt(c, i)
    ensures Put(c, c[i].0, v) == c[i := (c[i].0, v)]
  {
    if i > 0 {
      PutAtPlace(c[1..], i - 1, v);
      assert c == [c[0]] + c[1..];
    }
  }

  lemma {:induction false} PutAtEnd<V>(c: seq<(Id, V)>, id: Id, v: V)
    requires !Has(c, id)
    ensures Put(c, id, v) == c + [(id, v)]
  {
    if c != [] {
      PutAtEnd(c[1..], id, v);
      assert c == [c[0]] + c[1..];
    }
  }

  lemma {:induction false} FindAtPlace<V>(c: seq<(Id, V)>, i: nat)
    requires FirstAt(c, i)
    ensures Find(c, c[i].0) == Some(c[i].1)
  {
    if i > 0 { FindAtPlace(c[1..], i - 1); }
  }

  /** Taking out an id closes the gap and keeps the order of the others. */
  lemma {:induction false} DropAtPlace<V>(c: seq<(Id, V)>, i: nat)
    requires FirstAt(c, i)
    ensures Drop(c, c[i].0) == c[..i] + c[i + 1..]
  {
    if i > 0 {
      DropAtPlace(c[1..], i - 1);
      assert c == [c[0]] + c[1..];
    }
  }

  lemma {:induction false} AbsentIsInert<V>(c: seq<(Id, V)>, id: Id)
    requires !Has(c, id)
    ensures Find(c, id) == None
    ensures Drop(c, id) == c
  {
    if c != [] {
      AbsentIsInert(c[1..], id);
      assert c == [c[0]] + c[1..];
    }
  }

  /** The contents of a dictionary refine a map: what each write does to a later lookup. */
  lemma {:induction false} RefinesMap<V>(c: seq<(Id, V)>, id: Id, v: V, other: Id)
    requires forall i, j :: 0 <= i < j < |c| ==> c[i].0 != c[j].0
    ensures Find(Put(c, id, v), other) == if other == id then Some(v) else Find(c, other)
    ensures Find(Drop(c, id), other) == if other == id then None else Find(c, other)
    ensures Has(c, other) <==> Find(c, other) != None
  {
    if c != [] {
      RefinesMap(c[1..], id, v, other);
      if c[0].0 == id { AbsentIsInert(c[1..], id); }
      assert c == [c[0]] + c[1..];
    }
  }

  /** The entries hold the ids and objects of c. */
  ghost predicate Holds<V>(es: seq<Entry<V>>, c: seq<(Id, V)>)
    reads es`ent
  {
    |es| == |c| && forall i :: 0 <= i < |es| ==> c[i].0 == es[i].id && es[i].ent == Some(c[i].1)
  }

  lemma HoldsWithout<V>(es: seq<Entry<V>>, c: seq<(Id, V)>, i: nat, id: Id)
    requires Holds(es, c) && i < |es| && es[i].id == id
    ensures |c| == |es| && c[i].0 == id && Holds(es[..i] + es[i + 1..], c[..i] + c[i + 1..])
  {
  }

  lemma HoldsMore<V>(es: seq<Entry<V>>, c: seq<(Id, V)>, e: Entry<V>, v: V)
    requires Holds(es, c) && e.ent == Some(v)
    ensures Holds(es + [e], c + [(e.id, v)])
  {
  }

  class Dictionary<V> {
    const blank: V                     // what `new kind` makes
    var slots: array<Entry?<V>>        // _array, of _arraysz places
    var count: nat                     // _count
    ghost var entries: seq<Entry<V>>   // the filled places,
    ghost var ids: seq<Id>             // their ids,
    ghost var links: map<Id, Link>     // the links they hold,
    ghost var contents: seq<(Id, V)>   // and what callers see

    constructor (blank: V)
      ensures Valid() && contents == [] && this.blank == blank && fresh(slots)
    {
      this.blank := blank;
      slots, count := new Entry?<V>[0], 0;
      entries, ids, links, contents := [], [], map[], [];
    }

    ghost predicate Filled()
      reads this`slots, this`count, this`entries, this`ids, slots
    {
      && Named(entries, ids) && |entries| == count && (count == 0 || count < slots.Length)
      && forall i :: 0 <= i < count ==> slots[i] == entries[i]
    }

    /** Array and tree are in step. */
    ghost predicate Linked()
      reads this`slots, this`count, this`entries, this`ids, this`links, slots, entries`lower, entries`higher
    {
      Filled() && InStep(ids, links) && Shows(entries, links)
    }

    ghost predicate Valid()
      reads this, slots, entries
    {
      Linked() && Holds(entries, contents)
    }

    lemma Places(id: Id)
      requires Valid()
      ensures NoRepeats(ids) && Named(entries, ids) && count == |entries|
      ensures Has(contents, id) <==> id in ids
      ensures forall i :: 0 <= i < count ==> FirstAt(contents, i)
      ensures forall i, j :: 0 <= i < count && 0 <= j < count && entries[i] == entries[j] ==> i == j
    {
      forall i, j | 0 <= i < j < count ensures entries[i] != entries[j] { assert ids[i] != ids[j]; }
      if i :| 0 <= i < count && ids[i] == id { assert contents[i].0 == id; }
    }

    /** What an entry holds is what callers find under its id. */
    lemma FoundAt(e: Entry<V>)
      requires Valid() && e in entries
      ensures e.ent == Find(contents, e.id)
    {
      Places(e.id);
      var i :| 0 <= i < |entries| && entries[i] == e;
      FindAtPlace(contents, i);
    }

    method Exists(s: Id) returns (found: bool)
      requires Linked()
      ensures found <==> s in ids
    {
      if count == 0 { return false; }
      ghost var t := Build(ids);
      WalkDecidesMembership(ids, s);
      var crsr := slots[0];
      while crsr != null
        invariant crsr != null ==> crsr in entries
        invariant Spells(t, IdOf(crsr), links)
        invariant Finds(t, s) <==> s in ids
        decreases t
      {
        if crsr.id == s { return true; }
        if crsr.id.key < s.key {
          if crsr.higher != null { crsr := crsr.higher; } else { return false; }
          t := t.higher;
        } else {
          if crsr.lower != null { crsr := crsr.lower; } else { return false; }
          t := t.lower;
        }
      }
      return false;
    }

    /** newentry: appends an entry that is not in the tree yet, growing the array. */
    method NewEntry(id: Id, alloc: bool) returns (e: Entry<V>)
      requires Filled()
      modifies this`slots, this`count, this`entries, this`ids, slots
      ensures Filled() && (slots == old(slots) || fresh(slots))
      ensures fresh(e) && e.id == id && e.lower == null && e.higher == null
      ensures e.ent == if alloc then Some(blank) else None
      ensures entries == old(entries) + [e] && ids == old(ids) + [id]
    {
      if slots.Length == 0 {
        slots := new Entry?<V>[8](_ => null);
        count := 0;
      }
      if count + 1 >= slots.Length {
        var small := slots;
        slots := new Entry?<V>[2 * small.Length](i requires 0 <= i reads small => if i < small.Length then small[i] else null);
      }
      e := new Entry(id, if alloc then Some(blank) else None);
      slots[count] := e;
      count := count + 1;
      entries, ids := entries + [e], ids + [id];
    }

    /** The descent of demand: to the entry of s, or to the node below which s belongs. */
    method Descend(s: Id) returns (crsr: Entry<V>, found: bool, onHigher: bool)
      requires Linked() && count > 0
      ensures crsr in entries && (found <==> s in ids)
      ensures if found then crsr.id == s else (crsr.id, onHigher) == Slot(Build(ids), s)
    {
      ghost var sub := Build(ids);
      WalkDecidesMembership(ids, s);
      crsr, found, onHigher := slots[0], false, false;
      while crsr.id != s
        invariant crsr in entries
        invariant sub.Node? && Spells(sub, Some(crsr.id), links)
        invariant Finds(sub, s) <==> s in ids
        invariant Slot(sub, s) == Slot(Build(ids), s)
        decreases sub
      {
        if crsr.id.key < s.key {
          if crsr.higher == null { return crsr, false, true; }
          crsr, sub := crsr.higher, sub.higher;
        } else {
          if crsr.lower == null { return crsr, false, false; }
          crsr, sub := crsr.lower, sub.lower;
        }
      }
      found := true;
    }

    /** crsr->higher = newentry (s, alloc), or the same on the lower side. */
    method HangNew(s: Id, alloc: bool, crsr: Entry<V>, onHigher: bool) returns (e: Entry<V>)
      requires Linked() && crsr in entries && s !in ids
      requires Slot(Build(ids), s) == (crsr.id, onHigher)
      modifies this`slots, this`count, this`entries, this`ids, this`links, slots, crsr`lower, crsr`higher
      ensures Linked() && (slots == old(slots) || fresh(slots))
      ensures fresh(e) && e.id == s && e.ent == if alloc then Some(blank) else None
      ensures entries == old(entries) + [e] && ids == old(ids) + [s]
    {
      ghost var es, was := entries, ids;
      e := NewEntry(s, alloc);
      links := HangBelow(crsr, onHigher, e, es, was, links);
    }

    /** demand: the entry of an id, made and hung into the tree when it is new. */
    method Demand(s: Id, alloc: bool) returns (e: Entry<V>)
      requires Linked()
      modifies this`slots, this`count, this`entries, this`ids, this`links, slots, entries`lower, entries`higher
      ensures Linked() && (slots == old(slots) || fresh(slots))
      ensures e in entries && e.id == s
      ensures s in old(ids) ==> entries == old(entries) && ids == old(ids)
      ensures s !in old(ids) ==>
        && entries == old(entries) + [e] && ids == old(ids) + [s]
        && fresh(e) && e.ent == if alloc then Some(blank) else None
    {
      if count == 0 {
        e := NewEntry(s, alloc);
        links := map[s := UNLINKED];
        AloneIsLinked(e);
      } else {
        var crsr, found, onHigher := Descend(s);
        if found { e := crsr; } else { e := HangNew(s, alloc, crsr, onHigher); }
      }
    }

    /** operator[] on a key: a reference to the object, made on demand. */
    method Get(s: Id) returns (e: Entry<V>)
      requires Valid()
      modifies this, slots, entries`lower, entries`higher
      ensures Valid() && e in entries && e.id == s
      ensures (slots == old(slots) || fresh(slots)) && forall x <- entries :: x in old(entries) || fresh(x)
      ensures contents == if Has(old(contents), s) then old(contents) else Put(old(contents), s, blank)
      ensures e.ent == Find(contents, s)
    {
      hide Linked, Holds;
      Places(s);
      e := Demand(s, true);
      if s !in old(ids) {
        PutAtEnd(contents, s, blank);
        HoldsMore(old(entries), contents, e, blank);
        contents := contents + [(s, blank)];
      }
      FoundAt(e);
    }

    /** set: attach an object to a key. */
    method Set(s: Id, to: V)
      requires Valid()
      modifies this, slots, entries
      ensures Valid() && contents == Put(old(contents), s, to)
      ensures (slots == old(slots) || fresh(slots)) && forall x <- entries :: x in old(entries) || fresh(x)
    {
      hide Linked, Holds;
      Places(s);
      var e := Demand(s, false);
      if s !in old(ids) { PutAtEnd(contents, s, to); }
      Attach(e, to, old(entries), s !in old(ids));
    }

    /** The object is put into the entry, which is new or was there before. */
    method Attach(e: Entry<V>, to: V, ghost es: seq<Entry<V>>, ghost isNew: bool)
      requires Linked() && Holds(es, contents) && e in entries
      requires if isNew then entries == es + [e] && e !in es && Put(contents, e.id, to) == contents + [(e.id, to)] else entries == es
      modifies this`contents, e`ent
      ensures Valid() && contents == Put(old(contents), e.id, to)
    {
      hide Linked;
      ghost var i := |es|;
      if !isNew {
        Places(e.id);
        i :| 0 <= i < |entries| && entries[i] == e;
        PutAtPlace(contents, i, to);
      }
      contents := if isNew then contents + [(e.id, to)] else contents[i := (e.id, to)];
      e.ent := Some(to);
    }

    /** operator[] on an index; out of range is an exception. */
    method At(index: int) returns (r: Option<V>)
      requires Valid()
      ensures r == if 0 <= index < |contents| then Some(contents[index].1) else None
    {
      if index < 0 || index >= count { return None; }
      r := slots[index].ent;
    }

    method Clear()
      requires Valid()
      modifies this
      ensures Valid() && contents == [] && fresh(slots) && entries == []
    {
      slots, count := new Entry?<V>[0], 0;
      entries, ids, links, contents := [], [], map[], [];
    }

    /** The gap at place i is closed with memmove. */
    method CloseGap(i: nat)
      requires Filled() && i < count
      modifies this`count, this`entries, this`ids, slots
      ensures Filled()
      ensures entries == old(entries[..i] + entries[i + 1..]) && ids == old(ids[..i] + ids[i + 1..])
    {
      count := count - 1;
      if i < count {
        forall k | i <= k < count { slots[k] := slots[k + 1]; }
      }
      entries := entries[..i] + entries[i + 1..];
      ids := ids[..i] + ids[i + 1..];
    }

    /** The rebuild in remove. Entries that are not linked in again yet still hold the
        links of the tree before the removal. */
    method Relink()
      requires Filled() && count > 0 && NoRepeats(ids)
      modifies this`links, entries`lower, entries`higher
      ensures Linked()
    {
      hide InStep, Shows, NoRepeats;
      slots[0].lower, slots[0].higher := null, null;
      links := map[slots[0].id := UNLINKED];
      AloneIsLinked(entries[0]);
      assert entries[..1] == [entries[0]] && ids[..1] == [ids[0]];
      for j := 1 to count
        invariant InStep(ids[..j], links) && Shows(entries[..j], links)
      {
        NotBefore(entries, ids, j);
        links := LinkIn(slots[0], slots[j], entries[..j], ids[..j], links);
        assert entries[..j + 1] == entries[..j] + [entries[j]] && ids[..j + 1] == ids[..j] + [ids[j]];
      }
      assert entries[..count] == entries && ids[..count] == ids;
    }

    /** remove. The search does not stop at the match; no second one can follow. */
    method Remove(s: Id)
      requires Valid()
      modifies this, slots, entries`lower, entries`higher
      ensures Valid() && contents == Drop(old(contents), s)
      ensures slots == old(slots) && forall x <- entries :: x in old(entries)
    {
      hide InStep, Shows;
      Places(s);
      var i := 0;
      ghost var gone := false;
      while i < count
        invariant Valid() && slots == old(slots)
        invariant if gone then contents == Drop(old(contents), s) else
          contents == old(contents) && i <= count && s !in ids[..i]
        invariant gone ==> s !in ids
        invariant gone || entries == old(entries)
        invariant forall e <- entries :: e in old(entries)
        decreases count - i
      {
        if slots[i].id == s {
          Places(s);
          TakeOut(i);
          if count == 0 { return; }
          gone := true;
        }
        i := i + 1;
      }
      if !gone {
        Places(s);
        AbsentIsInert(contents, s);
      }
    }

    /** What happens at the match: the gap is closed and the tree is rebuilt. */
    method TakeOut(i: nat)
      requires Valid() && i < count
      modifies this`count, this`entries, this`ids, this`links, this`contents, slots, entries`lower, entries`higher
      ensures Valid() && contents == Drop(old(contents), old(ids[i])) && old(ids[i]) !in ids
      ensures entries == old(entries[..i] + entries[i + 1..])
    {
      hide InStep, Shows, NoRepeats, FirstAt, Holds, Has;
      Places(slots[i].id);
      DropAtPlace(contents, i);
      NoRepeatsWithout(ids, i);
      HoldsWithout(entries, contents, i, slots[i].id);
      contents := contents[..i] + contents[i + 1..];
      CloseGap(i);
      if count == 0 { EmptyIsLinked(entries, ids, links); } else { Relink(); }
    }
  }

  /** The public operations. */
  datatype Op<V> = Lookup(id: Id) | Assign(id: Id, v: V) | Delete(id: Id) | Empty

  function After<V>(c: seq<(Id, V)>, op: Op<V>, blank: V): seq<(Id, V)> {
    match op
    case Lookup(id) => if Find(c, id) == None then Put(c, id, blank) else c
    case Assign(id, v) => Put(c, id, v)
    case Delete(id) => Drop(c, id)
    case Empty => []
  }

  function AfterAll<V>(c: seq<(Id, V)>, ops: seq<Op<V>>, blank: V): seq<(Id, V)>
    decreases |ops|
  {
    if ops == [] then c else AfterAll(After(c, ops[0], blank), ops[1..], blank)
  }

  lemma {:induction false} FoundIsHas<V>(c: seq<(Id, V)>, id: Id)
    ensures Find(c, id) != None <==> Has(c, id)
  {
    if c != [] {
      FoundIsHas(c[1..], id);
      assert c == [c[0]] + c[1..];
    }
  }

  method Perform<V>(d: Dictionary<V>, op: Op<V>)
    requires d.Valid()
    modifies d, d.slots, d.entries
    ensures d.Valid() && d.contents == After(old(d.contents), op, d.blank)
    ensures (d.slots == old(d.slots) || fresh(d.slots)) && forall x <- d.entries :: x in old(d.entries) || fresh(x)
  {
    hide Dictionary.Valid;
    match op
    case Lookup(id) =>
      FoundIsHas(d.contents, id);
      var _ := d.Get(id);
    case Assign(id, v) => d.Set(id, v);
    case Delete(id) => d.Remove(id);
    case Empty => d.Clear();
  }

  /** Any run of operations keeps array and tree in step, and comes to the same run on an
      ordered map. */
  method PerformAll<V>(d: Dictionary<V>, ops: seq<Op<V>>)
    requires d.Valid()
    modifies d, d.slots, d.entries
    ensures d.Valid() && d.contents == AfterAll(old(d.contents), ops, d.blank)
  {
    hide Dictionary.Valid, After;
    assert ops[0..] == ops;
    for k := 0 to |ops|
      invariant d.Valid() && AfterAll(d.contents, ops[k..], d.blank) == AfterAll(old(d.contents), ops, d.blank)
      invariant (d.slots == old(d.slots) || fresh(d.slots)) && forall x <- d.entries :: x in old(d.entries) || fresh(x)
    {
      assert ops[k..][1..] == ops[k + 1..];
      assert forall i :: 0 <= i < |d.entries| ==> d.entries[i] in old(d.entries) || fresh(d.entries[i]);
      assert d.slots == old(d.slots) || fresh(d.slots);
      Perform(d, ops[k]);
    }
  }

  lemma EmptyIsLinked<V>(es: seq<Entry<V>>, ids: seq<Id>, m: map<Id, Link>)
    requires es == [] && ids == []
    ensures InStep(ids, m) && Shows(es, m)
  {
  }

  lemma NotBefore<V>(es: seq<Entry<V>>, ids: seq<Id>, j: nat)
    requires j < |es| && Named(es, ids) && NoRepeats(ids)
    ensures NoRepeats(ids[..j]) && es[j] !in es[..j] && ids[j] !in ids[..j]
  {
    NoRepeatsInPrefix(ids, j);
    assert forall k :: 0 <= k < j ==> ids[..j][k] == es[k].id;
  }
}
