/**
 What treecmp (src/libgrace/value.cpp) compares, told by the paths of the two trees, and what
 that means for the watchers of a configuration (include/grace/configdb.h).
 */
module TreeComparison {
  import opened Wrappers
  import opened Trees
  import opened KeyPaths
  import opened Transactions

  /** Children and attributes have names, and no two siblings the same. */
  ghost predicate Named(v: Node)
    decreases v, 1
  {
    && (forall i :: 0 <= i < |v.kids| ==> v.kids[i].name != "")
    && (forall i, j :: 0 <= i < j < |v.kids| ==> v.kids[i].name != v.kids[j].name)
    && (v.attrib.Some? ==> Named(v.attrib.value))
    && forall k <- v.kids :: Named(k.node)
  }

  lemma {:induction false} ResolveIsBelow(v: Node, path: seq<string>)
    ensures Resolve(v, path).Some? ==> Resolve(v, path).value == v || Resolve(v, path).value < v
    decreases |path|
  {
    if path != [] && path[0] != "" && KidNamed(v.kids, path[0]).Some? {
      ResolveIsBelow(v.kids[KidNamed(v.kids, path[0]).value].node, path[1..]);
    }
  }

  /** Wherever a path leads to in a, it leads to in b: to the same text and at least the same
      attributes from a leaf of a, and to no name besides from any other node. */
  ghost predicate SameTree(a: Node, b: Node)
    decreases a, 1
  {
    forall path :: Resolve(a, path).Some? ==> SameAt(a, b, path)
  }

  ghost predicate SameAt(a: Node, b: Node, path: seq<string>)
    requires Resolve(a, path).Some?
    decreases a, 0
  {
    ResolveIsBelow(a, path);
    var x := Resolve(a, path).value;
    Resolve(b, path).Some? &&
    var y := Resolve(b, path).value;
    if x.kids == [] then
      x.text == y.text && (x.attrib.Some? ==> y.attrib.Some? && SameTree(x.attrib.value, y.attrib.value))
    else forall name :: Resolve(y, [name]).Some? ==> Resolve(x, [name]).Some?
  }

  function NamesOf(kids: seq<Kid>): (s: set<string>)
    ensures forall name :: name in s <==> exists i :: 0 <= i < |kids| && kids[i].name == name
  {
    set i | 0 <= i < |kids| :: kids[i].name
  }

  lemma {:induction false} NamesCount(kids: seq<Kid>)
    requires forall i, j :: 0 <= i < j < |kids| ==> kids[i].name != kids[j].name
    ensures |NamesOf(kids)| == |kids|
  {
    if kids != [] {
      var n := |kids| - 1;
      NamesCount(kids[..n]);
      assert NamesOf(kids) == NamesOf(kids[..n]) + {kids[n].name} by {
        assert kids == kids[..n] + [kids[n]];
      }
    }
  }

  /** One name leads to the child of that name. */
  lemma {:induction false} OneName(v: Node, name: string)
    ensures Resolve(v, [name]) ==
      if name == "" || KidNamed(v.kids, name) == None then None else Some(v.kids[KidNamed(v.kids, name).value].node)
    ensures KidNamed(v.kids, name).Some? <==> name in NamesOf(v.kids)
  {
    if name != "" && KidNamed(v.kids, name).Some? {
      var kid := v.kids[KidNamed(v.kids, name).value].node;
      assert Resolve(v, [name]) == Resolve(kid, [name][1..]) && [name][1..] == [];
    }
    if k :| 0 <= k < |v.kids| && v.kids[k].name == name { assert v.kids[k] in v.kids; }
  }

  lemma {:induction false} KidIsNamed(v: Node, i: nat)
    requires Named(v) && i < |v.kids|
    ensures v.kids[i].name != "" && Named(v.kids[i].node)
    ensures forall j :: 0 <= j < |v.kids| && v.kids[j].name == v.kids[i].name ==> j == i
  {
    assert v.kids[i] in v.kids;
  }

  lemma {:induction false} KidNamedIs(v: Node, i: nat)
    requires Named(v) && i < |v.kids|
    ensures KidNamed(v.kids, v.kids[i].name) == Some(i) && v.kids[i].name != "" && Named(v.kids[i].node)
  {
    hide Named;
    KidIsNamed(v, i);
    assert v.kids[i] in v.kids;
  }

  /** The i-th child has a counterpart that is found equal. */
  ghost predicate KidCmp(a: Node, b: Node, i: nat)
    requires i < |a.kids|
  {
    var other := KidNamed(b.kids, a.kids[i].name);
    other.Some? && TreeCmp(a.kids[i].node, b.kids[other.value].node)
  }

  lemma {:induction false} KidsCmpIs(a: Node, b: Node, at: nat)
    requires at <= |a.kids| == |b.kids| && forall i :: 0 <= i < |a.kids| ==> a.kids[i].name != ""
    ensures KidsCmp(a.kids[at..], b, at) <==> forall i :: at <= i < |a.kids| ==> KidCmp(a, b, i)
    decreases |a.kids| - at
  {
    if at < |a.kids| {
      var rest := a.kids[at..];
      assert rest[0] == a.kids[at] && rest[1..] == a.kids[at + 1..];
      KidsCmpIs(a, b, at + 1);
      assert KidsCmp(rest, b, at) <==> KidCmp(a, b, at) && KidsCmp(rest[1..], b, at + 1);
    }
  }

  lemma {:induction false} NamesCountOf(v: Node)
    requires Named(v)
    ensures |NamesOf(v.kids)| == |v.kids|
  {
    NamesCount(v.kids);
  }

  /** With all names of a in b, there are as many children exactly when there are no others. */
  lemma {:induction false} CountIsNames(a: Node, b: Node)
    requires Named(a) && Named(b) && NamesOf(a.kids) <= NamesOf(b.kids)
    ensures |a.kids| == |b.kids| <==> NamesOf(b.kids) <= NamesOf(a.kids)
  {
    hide Named, NamesOf;
    NamesCountOf(a);
    NamesCountOf(b);
    if NamesOf(b.kids) <= NamesOf(a.kids) {
      assert NamesOf(b.kids) == NamesOf(a.kids);
    } else {
      StrictSubset(NamesOf(a.kids), NamesOf(b.kids));
    }
  }

  lemma StrictSubset(s: set<string>, t: set<string>)
    requires s < t
    ensures |s| < |t|
  {
    assert t == s + (t - s);
  }

  /** The same tree below means the same tree for each child, and the same names. */
  ghost predicate SameBelow(a: Node, b: Node) {
    NamesOf(b.kids) <= NamesOf(a.kids) && forall i :: 0 <= i < |a.kids| ==> SameKid(a, b, i)
  }

  ghost predicate SameKid(a: Node, b: Node, i: nat)
    requires i < |a.kids|
  {
    var other := KidNamed(b.kids, a.kids[i].name);
    other.Some? && SameTree(a.kids[i].node, b.kids[other.value].node)
  }

  lemma {:induction false} PathBelow(a: Node, i: nat, path: seq<string>)
    requires Named(a) && i < |a.kids|
    ensures Resolve(a, [a.kids[i].name] + path) == Resolve(a.kids[i].node, path)
  {
    KidNamedIs(a, i);
    assert ([a.kids[i].name] + path)[1..] == path;
  }

  lemma {:induction false} SameTreeIsBelow(a: Node, b: Node)
    requires Named(a) && Named(b) && a.kids != []
    ensures SameTree(a, b) <==> SameBelow(a, b)
  {
    if SameTree(a, b) { SameGoesDown(a, b); }
    if SameBelow(a, b) { SameComesUp(a, b); }
  }

  lemma {:induction false} SameGoesDown(a: Node, b: Node)
    requires Named(a) && Named(b) && a.kids != [] && SameTree(a, b)
    ensures SameBelow(a, b)
  {
    assert SameAt(a, b, []);
    forall name | name in NamesOf(b.kids) ensures name in NamesOf(a.kids) {
      OneName(a, name);
      OneName(b, name);
      var j :| 0 <= j < |b.kids| && b.kids[j].name == name;
    }
    forall i | 0 <= i < |a.kids| ensures SameKid(a, b, i) {
      var name, x := a.kids[i].name, a.kids[i].node;
      PathBelow(a, i, []);
      assert SameAt(a, b, [name] + []) && [name] + [] == [name];
      OneName(b, name);
      var j := KidNamed(b.kids, name).value;
      forall path | Resolve(x, path).Some? ensures SameAt(x, b.kids[j].node, path) {
        PathBelow(a, i, path);
        PathBelow(b, j, path);
        assert SameAt(a, b, [name] + path);
      }
    }
  }

  lemma {:induction false} SameComesUp(a: Node, b: Node)
    requires Named(a) && Named(b) && a.kids != [] && SameBelow(a, b)
    ensures SameTree(a, b)
  {
    forall path | Resolve(a, path).Some? ensures SameAt(a, b, path) {
      hide SameAt, Named, SameKid;
      if path == [] {
        SameNames(a, b);
      } else {
        var i := KidNamed(a.kids, path[0]).value;
        assert SameKid(a, b, i) && path == [a.kids[i].name] + path[1..];
        SameAtKid(a, b, i, path[1..]);
      }
    }
  }

  lemma {:induction false} SameNames(a: Node, b: Node)
    requires a.kids != [] && NamesOf(b.kids) <= NamesOf(a.kids)
    ensures Resolve(a, []).Some? && SameAt(a, b, [])
  {
    forall name | Resolve(b, [name]).Some? ensures Resolve(a, [name]).Some? {
      OneName(a, name);
      OneName(b, name);
    }
  }

  lemma {:induction false} SameAtKid(a: Node, b: Node, i: nat, path: seq<string>)
    requires Named(a) && Named(b) && i < |a.kids| && SameKid(a, b, i) && Resolve(a, [a.kids[i].name] + path).Some?
    ensures SameAt(a, b, [a.kids[i].name] + path)
  {
    hide Named;
    var j := KidNamed(b.kids, a.kids[i].name).value;
    PathBelow(a, i, path);
    PathBelow(b, j, path);
    assert SameAt(a.kids[i].node, b.kids[j].node, path);
  }

  lemma {:induction false} SameLeaf(a: Node, b: Node)
    requires a.kids == []
    ensures SameTree(a, b) <==>
      a.text == b.text && (a.attrib.Some? ==> b.attrib.Some? && SameTree(a.attrib.value, b.attrib.value))
  {
    assert Resolve(a, []) == Some(a) && Resolve(b, []) == Some(b);
    assert forall path :: Resolve(a, path).Some? ==> path == [];
    if SameTree(a, b) { assert SameAt(a, b, []); }
  }

  /** treecmp is right about trees in which siblings have different names: it finds them equal
      if and only if all that is in the first is in the second, and below the inner nodes of the
      first nothing else is. */
  lemma {:induction false} TreeCmpIsSameTree(a: Node, b: Node)
    requires Named(a) && Named(b)
    ensures TreeCmp(a, b) <==> SameTree(a, b)
    decreases a
  {
    hide SameTree, SameAt;
    if a.kids == [] {
      SameLeaf(a, b);
      if a.attrib.Some? && b.attrib.Some? { TreeCmpIsSameTree(a.attrib.value, b.attrib.value); }
    } else {
      forall i | 0 <= i < |a.kids| ensures KidCmp(a, b, i) <==> SameKid(a, b, i) {
        KidNamedIs(a, i);
        var other := KidNamed(b.kids, a.kids[i].name);
        if other.Some? {
          KidNamedIs(b, other.value);
          TreeCmpIsSameTree(a.kids[i].node, b.kids[other.value].node);
        }
      }
      SameTreeIsBelow(a, b);
      InnerCmp(a, b);
    }
  }

  lemma {:induction false} AllNamed(v: Node)
    requires Named(v)
    ensures forall i :: 0 <= i < |v.kids| ==> v.kids[i].name != ""
  {
  }

  /** treecmp of a node with children, child by child. */
  lemma {:induction false} InnerCmp(a: Node, b: Node)
    requires Named(a) && Named(b) && a.kids != []
    ensures TreeCmp(a, b) <==> NamesOf(b.kids) <= NamesOf(a.kids) && forall i :: 0 <= i < |a.kids| ==> KidCmp(a, b, i)
  {
    AllNamed(a);
    hide Named;
    assert a.kids[0..] == a.kids;
    if |a.kids| == |b.kids| { KidsCmpIs(a, b, 0); }
    if forall i :: 0 <= i < |a.kids| ==> KidCmp(a, b, i) {
      forall name | name in NamesOf(a.kids) ensures name in NamesOf(b.kids) {
        OneName(b, name);
        var i :| 0 <= i < |a.kids| && a.kids[i].name == name;
        assert KidCmp(a, b, i);
      }
      CountIsNames(a, b);
    }
  }

  /** A load that finds a watched path in both trees calls one change, unless they are the same
      there. */
  lemma {:induction false} ChangeIsTold(i: nat, path: seq<string>, ndb: Node, db: Node)
    requires STAR !in path && Resolve(db, path).Some? && Resolve(ndb, path).Some?
    requires Named(Resolve(db, path).value) && Named(Resolve(ndb, path).value)
    ensures var was, now := Resolve(db, path).value, Resolve(ndb, path).value;
      Effects(true, i, path, ndb, db) == if SameTree(was, now) then [] else [Call(i, Change, now, was)]
  {
    PlainEffects(i, path, ndb, db);
    TreeCmpIsSameTree(Resolve(db, path).value, Resolve(ndb, path).value);
  }

  /** A leaf anywhere below a watched path that has another text, or is gone, is one change. */
  lemma {:induction false} ChangedLeafIsTold(i: nat, path: seq<string>, below: seq<string>, ndb: Node, db: Node)
    requires STAR !in path && Resolve(db, path).Some? && Resolve(ndb, path).Some?
    requires Named(Resolve(db, path).value) && Named(Resolve(ndb, path).value)
    requires var was, now := Resolve(Resolve(db, path).value, below), Resolve(Resolve(ndb, path).value, below);
      was.Some? && was.value.kids == [] && (now.Some? ==> now.value.text != was.value.text)
    ensures Effects(true, i, path, ndb, db) == [Call(i, Change, Resolve(ndb, path).value, Resolve(db, path).value)]
  {
    ChangeIsTold(i, path, ndb, db);
    assert !SameAt(Resolve(db, path).value, Resolve(ndb, path).value, below);
  }

  /** A watched leaf with another text, whatever the trees are like besides. */
  lemma {:induction false} ChangedTextIsTold(i: nat, path: seq<string>, ndb: Node, db: Node)
    requires STAR !in path && Resolve(db, path).Some? && Resolve(ndb, path).Some?
    requires Resolve(db, path).value.kids == [] && Resolve(db, path).value.text != Resolve(ndb, path).value.text
    ensures Effects(true, i, path, ndb, db) == [Call(i, Change, Resolve(ndb, path).value, Resolve(db, path).value)]
  {
    PlainEffects(i, path, ndb, db);
  }
}
