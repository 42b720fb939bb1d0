/**
 Configuration transactions: the tree cursor of include/grace/visitor.h, key paths with a
 wildcard (src/libgrace/configdb.cpp) and the validate-then-apply protocol of
 include/grace/configdb.h.
 */
module Trees {
  import opened Wrappers

  /** A value object: text, attributes, and children with or without a name. The visitor does
      not look at attributes. */
  datatype Node = Node(text: string, attrib: Option<Node>, kids: seq<Kid>)

  datatype Kid = Kid(name: string, node: Node)

  /** visitchild (name): unnamed children cannot be found. */
  function KidNamed(kids: seq<Kid>, name: string): (r: Option<nat>)
    ensures r.Some? ==> r.value < |kids| && kids[r.value].name == name
    ensures r.None? ==> forall k <- kids :: k.name != name
  {
    if kids == [] then None
    else if kids[0].name == name then Some(0)
    else
      match KidNamed(kids[1..], name)
      case None => None
      case Some(i) => Some(i + 1)
  }

  /** The cursor: idx is the place of current among its parent's children when it was
      reached by place; sti and stk hold idx and node of every level above. */
  datatype Cursor = Cursor(root: Node, current: Node, idx: Option<nat>, sti: seq<Option<nat>>, stk: seq<Node>)

  function Start(v: Node): Cursor {
    Cursor(v, v, None, [], [])
  }

  function Pushed(c: Cursor, kid: Node, idx: Option<nat>): Cursor {
    Cursor(c.root, kid, idx, c.sti + [c.idx], c.stk + [c.current])
  }

  function Enter(c: Cursor, name: string): (Cursor, bool) {
    if name == "" then (c, false)
    else
      match KidNamed(c.current.kids, name)
      case None => (c, false)
      case Some(i) => (Pushed(c, c.current.kids[i].node, None), true)
  }

  function First(c: Cursor): (Cursor, bool) {
    if c.current.kids == [] then (c, false) else (Pushed(c, c.current.kids[0].node, Some(0)), true)
  }

  /** next to the last sibling leaves current at the parent, although the stacks are those
      of the child. */
  function Next(c: Cursor): (Cursor, bool)
    requires Sound(c)
  {
    if c.idx == None then (c, false)
    else
      var above, i := c.stk[|c.stk| - 1], c.idx.value + 1;
      if i < |above.kids| then (c.(current := above.kids[i].node, idx := Some(i)), true) else (c.(current := above), false)
  }

  function Up(c: Cursor): (Cursor, bool)
    requires Sound(c)
  {
    if c.current == c.root then (c, false)
    else
      AtRootOnlyOnTop(c);
      (Cursor(c.root, c.stk[|c.stk| - 1], c.sti[|c.sti| - 1], c.sti[..|c.sti| - 1], c.stk[..|c.stk| - 1]), true)
  }

  /** kid is the child of above at idx, or some child when idx is not known. */
  ghost predicate Below(above: Node, idx: Option<nat>, kid: Node) {
    match idx
    case Some(i) => i < |above.kids| && above.kids[i].node == kid
    case None => exists i :: 0 <= i < |above.kids| && above.kids[i].node == kid
  }

  /** The stacks are equally deep, and the object stack is the chain of ancestors. */
  ghost predicate Sound(c: Cursor) {
    && |c.sti| == |c.stk|
    && (c.stk == [] ==> c.current == c.root && c.idx == None)
    && (c.stk != [] ==> c.stk[0] == c.root && c.sti[0] == None && Below(c.stk[|c.stk| - 1], c.idx, c.current))
    && forall i :: 0 < i < |c.stk| ==> Below(c.stk[i - 1], c.sti[i], c.stk[i])
  }

  /** The number of nodes: what is below is smaller. */
  function Size(v: Node): (n: nat)
    ensures n > 0
    decreases v, 0
  {
    1 + Sizes(v.kids)
  }

  function Sizes(kids: seq<Kid>): nat
    decreases kids, 0
  {
    if kids == [] then 0 else Size(kids[0].node) + Sizes(kids[1..])
  }

  lemma {:induction false} KidIsSmaller(kids: seq<Kid>, i: nat)
    requires i < |kids|
    ensures Size(kids[i].node) <= Sizes(kids)
  {
    if i > 0 { KidIsSmaller(kids[1..], i - 1); }
  }

  lemma {:induction false} AncestorsAreLarger(c: Cursor, i: nat)
    requires Sound(c) && i < |c.stk|
    ensures Size(c.current) < Size(c.stk[i])
    decreases |c.stk| - i
  {
    var below := if i + 1 < |c.stk| then c.stk[i + 1] else c.current;
    var idx := if i + 1 < |c.stk| then c.sti[i + 1] else c.idx;
    assert Below(c.stk[i], idx, below);
    var j :| 0 <= j < |c.stk[i].kids| && c.stk[i].kids[j].node == below;
    KidIsSmaller(c.stk[i].kids, j);
    if i + 1 < |c.stk| { AncestorsAreLarger(c, i + 1); }
  }

  /** The test that up makes, whether the cursor is at the root, is the same as whether
      there is anything on the stacks. */
  lemma AtRootOnlyOnTop(c: Cursor)
    requires Sound(c)
    ensures c.current == c.root <==> c.stk == []
  {
    if c.stk != [] { AncestorsAreLarger(c, 0); }
  }

  lemma PlaceMeansParent(c: Cursor)
    requires Sound(c) && c.idx.Some?
    ensures c.stk != [] && c.idx.value < |c.stk[|c.stk| - 1].kids|
  {
  }

  /** A failed next breaks the chain, exactly when there was a place to go on from. */
  lemma FailedNextLosesItsPlace(c: Cursor)
    requires Sound(c)
    ensures Sound(Next(c).0) <==> Next(c).1 || c.idx == None
    ensures |Next(c).0.sti| == |Next(c).0.stk|
  {
    MovesKeepSound(c, "");
    if c.idx.Some? && !Next(c).1 {
      var above := c.stk[|c.stk| - 1];
      KidIsSmaller(above.kids, c.idx.value);
      assert Size(c.current) < Size(above);
    }
  }

  /** Every successful move, and every other failed one, keeps the stacks in step. */
  lemma MovesKeepSound(c: Cursor, name: string)
    requires Sound(c)
    ensures Sound(Enter(c, name).0) && Sound(First(c).0) && Sound(Up(c).0)
    ensures Next(c).1 ==> Sound(Next(c).0)
  {
    AtRootOnlyOnTop(c);
    if c.stk != [] && |c.stk| > 1 {
      assert Below(c.stk[|c.stk| - 2], c.sti[|c.stk| - 1], c.stk[|c.stk| - 1]);
    }
  }
}

/** keypath: a chain of names, where "*" stands for each child in turn. */
module KeyPaths {
  import opened Wrappers
  import opened Trees

  const STAR := "*"

  /** The cursor of a path, the path it has walked, and how many children of the wildcard's
      node were passed over. */
  datatype Walk = Walk(c: Cursor, respos: seq<string>, cindex: nat)

  function Step(c: Cursor, name: string): Cursor {
    if name == STAR then First(c).0 else Enter(c, name).0
  }

  /** The walk of begin. A name that is not there is passed over. */
  function Descend(c: Cursor, names: seq<string>): (d: Cursor)
    requires Sound(c)
    ensures Sound(d) && d.root == c.root
    decreases |names|
  {
    if names == [] then c
    else
      MovesKeepSound(c, names[0]);
      Descend(Step(c, names[0]), names[1..])
  }

  function Begin(path: seq<string>, v: Node): (w: Walk)
    ensures Sound(w.c) && w.c.root == v && w.respos == path
  {
    Walk(Descend(Start(v), path), path, 0)
  }

  /** Back to the last wildcard. */
  function BackUp(w: Walk): (p: Walk)
    requires Sound(w.c)
    ensures Sound(p.c) && p.c.root == w.c.root && p.cindex == w.cindex && p.respos <= w.respos
    ensures p.respos != [] ==> p.respos[|p.respos| - 1] == STAR
    decreases |w.respos|
  {
    if w.respos == [] || w.respos[|w.respos| - 1] == STAR then w
    else
      MovesKeepSound(w.c, "");
      BackUp(Walk(Up(w.c).0, w.respos[..|w.respos| - 1], w.cindex))
  }

  /** next, n times over; None when it fails before. */
  function NextN(c: Cursor, n: nat): (r: Option<Cursor>)
    requires Sound(c)
    ensures r.Some? ==> Sound(r.value) && r.value.root == c.root
    ensures r.Some? && n > 0 ==> c.idx.Some? && r.value.idx == Some(c.idx.value + n)
    decreases n
  {
    if n == 0 then Some(c)
    else
      MovesKeepSound(c, "");
      if !Next(c).1 then None else NextN(Next(c).0, n - 1)
  }

  lemma {:induction false} KidsAreFewer(kids: seq<Kid>)
    ensures |kids| <= Sizes(kids)
  {
    if kids != [] { KidsAreFewer(kids[1..]); }
  }

  lemma {:induction false} LevelsFit(c: Cursor, i: nat)
    requires Sound(c) && i < |c.stk|
    ensures Size(c.stk[i]) <= Size(c.root)
  {
    if i > 0 {
      LevelsFit(c, i - 1);
      assert Below(c.stk[i - 1], c.sti[i], c.stk[i]);
      var j :| 0 <= j < |c.stk[i - 1].kids| && c.stk[i - 1].kids[j].node == c.stk[i];
      KidIsSmaller(c.stk[i - 1].kids, j);
    }
  }

  /** No place among siblings is as large as the tree. */
  lemma PlacesAreFew(c: Cursor)
    requires Sound(c) && c.idx.Some?
    ensures c.stk != [] && c.idx.value < |c.stk[|c.stk| - 1].kids| < Size(c.root)
  {
    LevelsFit(c, |c.stk| - 1);
    KidsAreFewer(c.stk[|c.stk| - 1].kids);
  }

  /** The way down again from where next left off. */
  function Refill(path: seq<string>, w: Walk): (r: Option<Walk>)
    requires Sound(w.c) && w.respos <= path
    ensures r.Some? ==> Sound(r.value.c) && r.value.c.root == w.c.root && r.value.respos == path
    decreases |path| - |w.respos|
  {
    if |w.respos| == |path| then Some(w)
    else
      var name := path[|w.respos|];
      MovesKeepSound(w.c, name);
      assert w.respos + [name] <= path;
      if name == STAR then
        var r := NextN(First(w.c).0, w.cindex + 1);
        if r == None then None else Refill(path, Walk(r.value, w.respos + [name], w.cindex + 1))
      else Refill(path, Walk(Enter(w.c, name).0, w.respos + [name], w.cindex))
  }

  lemma {:induction false} PassedKidsAreFew(c: Cursor, n: nat)
    requires Sound(c)
    ensures Sound(First(c).0) && First(c).0.root == c.root
    ensures n > 0 && NextN(First(c).0, n).Some? ==> n < Size(c.root)
  {
    MovesKeepSound(c, STAR);
    if n > 0 && NextN(First(c).0, n).Some? { PlacesAreFew(NextN(First(c).0, n).value); }
  }

  /** Every wildcard passed on the way moves the counter, which stays below the size of the
      tree: the loop over the matches of any path ends. */
  lemma {:induction false} RefillCounts(path: seq<string>, w: Walk)
    requires Sound(w.c) && w.respos <= path
    ensures Refill(path, w).Some? && STAR !in path[|w.respos|..] ==> w.cindex == Refill(path, w).value.cindex
    ensures Refill(path, w).Some? && STAR in path[|w.respos|..] ==> w.cindex < Refill(path, w).value.cindex < Size(w.c.root)
    decreases |path| - |w.respos|
  {
    hide Sound, First, Enter;
    if |w.respos| < |path| {
      var name := path[|w.respos|];
      MovesKeepSound(w.c, name);
      EnterKeepsRoot(w.c, name);
      assert path[|w.respos|..] == [name] + path[|w.respos| + 1..];
      if name == STAR {
        PassedKidsAreFew(w.c, w.cindex + 1);
        var r := NextN(First(w.c).0, w.cindex + 1);
        if r.Some? { RefillCounts(path, Walk(r.value, w.respos + [name], w.cindex + 1)); }
      } else {
        RefillCounts(path, Walk(Enter(w.c, name).0, w.respos + [name], w.cindex));
      }
    }
  }

  lemma EnterKeepsRoot(c: Cursor, name: string)
    ensures Enter(c, name).0.root == c.root
  {
  }

  /** keypath::next */
  function NextMatch(path: seq<string>, w: Walk): (r: Option<Walk>)
    requires Sound(w.c) && w.respos == path
    ensures r.Some? ==> Sound(r.value.c) && r.value.c.root == w.c.root && r.value.respos == path
    ensures r.Some? ==> w.cindex < r.value.cindex < Size(w.c.root)
  {
    var p := BackUp(w);
    if p.respos == [] then None
    else
      MovesKeepSound(p.c, "");
      var n := |p.respos| - 1;
      assert path[n] == p.respos[n] == STAR && path[n] in path[n..];
      var u := Walk(Up(p.c).0, p.respos[..n], p.cindex);
      RefillCounts(path, u);
      Refill(path, u)
  }

  /** What get returns in each round of a begin, get, next loop. */
  function RoundsFrom(path: seq<string>, w: Walk): (nodes: seq<Node>)
    requires Sound(w.c) && w.respos == path
    ensures nodes != [] && nodes[0] == w.c.current
    decreases Size(w.c.root) - w.cindex
  {
    match NextMatch(path, w)
    case None => [w.c.current]
    case Some(w') => [w.c.current] + RoundsFrom(path, w')
  }

  function Rounds(path: seq<string>, v: Node): seq<Node> {
    RoundsFrom(path, Begin(path, v))
  }

  /** existsin; made says that something was ever added to the path, so that it has an array. */
  predicate Exists(made: bool, path: seq<string>, v: Node) {
    made && ExistsFrom(path, Start(v))
  }

  predicate ExistsFrom(names: seq<string>, c: Cursor)
    requires Sound(c)
    decreases |names|
  {
    names == [] ||
    (MovesKeepSound(c, names[0]);
     (if names[0] == STAR then First(c).1 else Enter(c, names[0]).1) && ExistsFrom(names[1..], Step(c, names[0])))
  }

  /** What a path without wildcard leads to. */
  function Resolve(v: Node, names: seq<string>): Option<Node>
    decreases |names|
  {
    if names == [] then Some(v)
    else if names[0] == "" then None
    else
      match KidNamed(v.kids, names[0])
      case None => None
      case Some(i) => Resolve(v.kids[i].node, names[1..])
  }

  lemma UpUndoesPush(c: Cursor, kid: Node, idx: Option<nat>)
    requires Sound(c) && Sound(Pushed(c, kid, idx))
    ensures Up(Pushed(c, kid, idx)) == (c, true)
  {
    AtRootOnlyOnTop(Pushed(c, kid, idx));
    assert (c.sti + [c.idx])[..|c.sti|] == c.sti && (c.stk + [c.current])[..|c.stk|] == c.stk;
  }

  lemma {:induction false} DescendInTwo(c: Cursor, x: seq<string>, y: seq<string>)
    requires Sound(c)
    ensures Descend(c, x + y) == Descend(Descend(c, x), y)
    decreases |x|
  {
    if x == [] {
      assert x + y == y;
    } else {
      assert (x + y)[1..] == x[1..] + y;
      MovesKeepSound(c, x[0]);
      DescendInTwo(Step(c, x[0]), x[1..], y);
    }
  }

  /** On names that are there the cursor reaches what they lead to. */
  lemma {:induction false} DescendResolves(c: Cursor, names: seq<string>)
    requires Sound(c) && STAR !in names && Resolve(c.current, names).Some?
    ensures Descend(c, names).current == Resolve(c.current, names).value
    ensures ExistsFrom(names, c)
    decreases |names|
  {
    if names != [] {
      MovesKeepSound(c, names[0]);
      DescendResolves(Step(c, names[0]), names[1..]);
    }
  }

  /** existsin is right about paths without wildcard. */
  lemma {:induction false} ExistsIsResolve(c: Cursor, names: seq<string>)
    requires Sound(c) && STAR !in names
    ensures ExistsFrom(names, c) <==> Resolve(c.current, names).Some?
    decreases |names|
  {
    if names != [] {
      MovesKeepSound(c, names[0]);
      ExistsIsResolve(Step(c, names[0]), names[1..]);
    }
  }

  lemma {:induction false} ResolveInTwo(v: Node, x: seq<string>, y: seq<string>)
    ensures Resolve(v, x + y) == match Resolve(v, x) case None => None case Some(u) => Resolve(u, y)
    decreases |x|
  {
    if x == [] {
      assert x + y == y;
    } else {
      assert (x + y)[1..] == x[1..] + y;
      if x[0] != "" && KidNamed(v.kids, x[0]).Some? {
        ResolveInTwo(v.kids[KidNamed(v.kids, x[0]).value].node, x[1..], y);
      }
    }
  }

  lemma {:induction false} UpUndoesLast(c: Cursor, front: seq<string>, last: string)
    requires Sound(c) && STAR !in front && last != STAR && Resolve(c.current, front + [last]).Some?
    ensures Resolve(c.current, front).Some? && Up(Descend(c, front + [last])).0 == Descend(c, front)
  {
    hide Sound;
    ResolveInTwo(c.current, front, [last]);
    DescendInTwo(c, front, [last]);
    DescendResolves(c, front);
    var d := Descend(c, front);
    MovesKeepSound(d, last);
    OneStep(d, last);
    UpUndoesPush(d, Enter(d, last).0.current, None);
  }

  lemma {:induction false} BackUpOne(c: Cursor, r: seq<string>, name: string, k: nat)
    requires Sound(c) && name != STAR
    ensures Sound(Up(c).0) && BackUp(Walk(c, r + [name], k)) == BackUp(Walk(Up(c).0, r, k))
  {
    MovesKeepSound(c, "");
    assert (r + [name])[..|r|] == r;
  }

  /** Going back over names that were there undoes the way down. */
  lemma {:induction false} BackUpUndoes(c: Cursor, names: seq<string>, r: seq<string>, k: nat)
    requires Sound(c) && STAR !in names && Resolve(c.current, names).Some?
    ensures BackUp(Walk(Descend(c, names), r + names, k)) == BackUp(Walk(c, r, k))
    decreases |names|
  {
    hide Sound, Up;
    if names == [] {
      assert r + names == r;
    } else {
      var n := |names| - 1;
      var front, last := names[..n], names[n];
      assert names == front + [last];
      UpUndoesLast(c, front, last);
      assert r + names == (r + front) + [last];
      BackUpOne(Descend(c, names), r + front, last, k);
      BackUpUndoes(c, front, r, k);
    }
  }

  lemma {:induction false} RefillDescends(path: seq<string>, i: nat, c: Cursor, k: nat)
    requires Sound(c) && i <= |path| && STAR !in path[i..]
    ensures Refill(path, Walk(c, path[..i], k)) == Some(Walk(Descend(c, path[i..]), path, k))
    decreases |path| - i
  {
    if i == |path| {
      assert path[..i] == path;
    } else {
      assert path[i..][0] == path[i] && path[i..][1..] == path[i + 1..];
      assert path[..i] + [path[i]] == path[..i + 1];
      assert path[i] in path[i..];
      MovesKeepSound(c, path[i]);
      RefillDescends(path, i + 1, Enter(c, path[i]).0, k);
    }
  }

  /** The cursor n at the wildcard's node, moved to its k-th child. */
  function AtKid(n: Cursor, k: nat): (c: Cursor)
    requires Sound(n) && k < |n.current.kids|
    ensures Sound(c)
  {
    Pushed(n, n.current.kids[k].node, Some(k))
  }

  lemma {:induction false} NextFromKid(n: Cursor, j: nat, m: nat)
    requires Sound(n) && j < |n.current.kids|
    ensures NextN(AtKid(n, j), m) == if j + m < |n.current.kids| then Some(AtKid(n, j + m)) else None
    decreases m
  {
    if m > 0 && j + 1 < |n.current.kids| {
      NextFromKid(n, j + 1, m - 1);
    }
  }

  /** The path with one wildcard whose prefix is there, and where each child of the
      wildcard's node, of which there is one at least, has the rest of the path. */
  ghost predicate Regular(pre: seq<string>, post: seq<string>, v: Node) {
    && STAR !in pre && STAR !in post
    && Resolve(v, pre).Some? && Resolve(v, pre).value.kids != []
    && forall k <- Resolve(v, pre).value.kids :: Resolve(k.node, post).Some?
  }

  /** Only the prefix and a child of its node are there. */
  predicate Rooted(pre: seq<string>, post: seq<string>, v: Node) {
    STAR !in pre && STAR !in post && Resolve(v, pre).Some? && Resolve(v, pre).value.kids != []
  }

  /** The walk at the k-th child of the wildcard's node. */
  ghost function RoundAt(pre: seq<string>, post: seq<string>, v: Node, k: nat): (w: Walk)
    requires Rooted(pre, post, v) && k < |Resolve(v, pre).value.kids|
    ensures Sound(w.c) && w.c.root == v && w.respos == pre + [STAR] + post
  {
    DescendResolves(Start(v), pre);
    Walk(Descend(AtKid(Descend(Start(v), pre), k), post), pre + [STAR] + post, k)
  }

  lemma FirstRound(pre: seq<string>, post: seq<string>, v: Node)
    requires Rooted(pre, post, v)
    ensures Begin(pre + [STAR] + post, v) == RoundAt(pre, post, v, 0)
  {
    DescendResolves(Start(v), pre);
    var n := Descend(Start(v), pre);
    DescendInTwo(Start(v), pre + [STAR], post);
    DescendInTwo(Start(v), pre, [STAR]);
    OneStep(n, STAR);
  }

  lemma {:induction false} OneStep(c: Cursor, name: string)
    requires Sound(c)
    ensures Descend(c, [name]) == Step(c, name)
  {
    assert [name][1..] == [];
    MovesKeepSound(c, name);
    assert Descend(Step(c, name), []) == Step(c, name);
  }

  lemma {:induction false} BackToKid(pre: seq<string>, post: seq<string>, n: Cursor, k: nat)
    requires Sound(n) && k < |n.current.kids| && STAR !in post && Resolve(n.current.kids[k].node, post).Some?
    ensures BackUp(Walk(Descend(AtKid(n, k), post), pre + [STAR] + post, k)) == Walk(AtKid(n, k), pre + [STAR], k)
    ensures Up(AtKid(n, k)).0 == n
  {
    BackUpUndoes(AtKid(n, k), post, pre + [STAR], k);
    UpUndoesPush(n, n.current.kids[k].node, Some(k));
  }

  lemma {:induction false} OnToNextKid(pre: seq<string>, post: seq<string>, n: Cursor, k: nat)
    requires Sound(n) && k < |n.current.kids| && STAR !in post
    ensures pre <= pre + [STAR] + post
    ensures Refill(pre + [STAR] + post, Walk(n, pre, k)) ==
      if k + 1 < |n.current.kids| then Some(Walk(Descend(AtKid(n, k + 1), post), pre + [STAR] + post, k + 1)) else None
  {
    hide Sound;
    MovesKeepSound(n, STAR);
    var path, i := pre + [STAR] + post, |pre| + 1;
    PartsOf(pre, post);
    FirstThenNext(n, k + 1);
    if k + 1 < |n.current.kids| { RefillDescends(path, i, AtKid(n, k + 1), k + 1); }
  }

  lemma PartsOf(pre: seq<string>, post: seq<string>)
    ensures var path, i := pre + [STAR] + post, |pre| + 1;
      path[|pre|] == STAR && path[i..] == post && path[..i] == pre + [STAR] && pre <= path
  {
  }

  lemma {:induction false} FirstThenNext(n: Cursor, m: nat)
    requires Sound(n) && n.current.kids != []
    ensures Sound(First(n).0)
    ensures NextN(First(n).0, m) == if m < |n.current.kids| then Some(AtKid(n, m)) else None
  {
    MovesKeepSound(n, STAR);
    NextFromKid(n, 0, m);
  }

  /** From a child that has the rest of the path next goes to the child after it, and after
      the last it says no. */
  lemma {:induction false} NextRound(pre: seq<string>, post: seq<string>, v: Node, k: nat)
    requires Rooted(pre, post, v) && k < |Resolve(v, pre).value.kids|
    requires Resolve(Resolve(v, pre).value.kids[k].node, post).Some?
    ensures NextMatch(pre + [STAR] + post, RoundAt(pre, post, v, k)) ==
      if k + 1 < |Resolve(v, pre).value.kids| then Some(RoundAt(pre, post, v, k + 1)) else None
  {
    hide Sound;
    StartIsSound(v);
    DescendResolves(Start(v), pre);
    var n := Descend(Start(v), pre);
    BackToKid(pre, post, n, k);
    OnToNextKid(pre, post, n, k);
    assert (pre + [STAR])[..|pre|] == pre;
  }

  /** The walks of all rounds: where the cursor stands when get is called. */
  function Walks(path: seq<string>, w: Walk): (ws: seq<Walk>)
    requires Sound(w.c) && w.respos == path
    ensures ws != [] && ws[0] == w
    decreases Size(w.c.root) - w.cindex
  {
    match NextMatch(path, w)
    case None => [w]
    case Some(w') => [w] + Walks(path, w')
  }

  lemma {:induction false} WalksGiveRounds(path: seq<string>, w: Walk, i: nat)
    requires Sound(w.c) && w.respos == path
    ensures |RoundsFrom(path, w)| == |Walks(path, w)|
    ensures i < |Walks(path, w)| ==> RoundsFrom(path, w)[i] == Walks(path, w)[i].c.current
    decreases Size(w.c.root) - w.cindex
  {
    hide NextMatch, Sound;
    match NextMatch(path, w)
    case None =>
    case Some(w') => WalksGiveRounds(path, w', if i > 0 then i - 1 else 0);
  }

  /** While the children before it have the rest of the path, the i-th round is at the i-th
      child, whether that has it or not; and when all have it there are no more rounds. */
  lemma {:induction false} WalksGoByChildren(pre: seq<string>, post: seq<string>, v: Node, k: nat, i: nat)
    requires Rooted(pre, post, v) && k <= i < |Resolve(v, pre).value.kids|
    requires forall j :: k <= j < i ==> Resolve(Resolve(v, pre).value.kids[j].node, post).Some?
    ensures var ws := Walks(pre + [STAR] + post, RoundAt(pre, post, v, k));
      && i - k < |ws| && ws[i - k] == RoundAt(pre, post, v, i)
      && (i + 1 == |Resolve(v, pre).value.kids| && Resolve(Resolve(v, pre).value.kids[i].node, post).Some? ==> |ws| == i + 1 - k)
    decreases i - k
  {
    hide Sound, Rooted, RoundAt, NextMatch;
    RootedHasNoStars(pre, post, v);
    if k < i || Resolve(Resolve(v, pre).value.kids[k].node, post).Some? { NextRound(pre, post, v, k); }
    if k < i { WalksGoByChildren(pre, post, v, k + 1, i); }
  }

  lemma {:induction false} RootedHasNoStars(pre: seq<string>, post: seq<string>, v: Node)
    requires Rooted(pre, post, v)
    ensures Resolve(v, pre).Some? && Resolve(v, pre).value.kids != []
  {
  }

  /** Names that are not there are passed over. */
  function Follow(v: Node, names: seq<string>): Node
    decreases |names|
  {
    if names == [] then v
    else
      var i := if names[0] == "" then None else KidNamed(v.kids, names[0]);
      Follow(if i == None then v else v.kids[i.value].node, names[1..])
  }

  lemma {:induction false} DescendFollows(c: Cursor, names: seq<string>)
    requires Sound(c) && STAR !in names
    ensures Descend(c, names).current == Follow(c.current, names)
    ensures Resolve(c.current, names).Some? ==> Follow(c.current, names) == Resolve(c.current, names).value
    decreases |names|
  {
    if names != [] {
      MovesKeepSound(c, names[0]);
      DescendFollows(Step(c, names[0]), names[1..]);
    }
  }

  /** get in the i-th round, as long as all children before the i-th had the rest of the path:
      what as much of the rest as the i-th child has leads to. */
  lemma {:induction false} WildcardVisitsInOrder(pre: seq<string>, post: seq<string>, v: Node, i: nat)
    requires Rooted(pre, post, v) && i < |Resolve(v, pre).value.kids|
    requires forall j :: 0 <= j < i ==> Resolve(Resolve(v, pre).value.kids[j].node, post).Some?
    ensures var rounds := Rounds(pre + [STAR] + post, v);
      i < |rounds| && rounds[i] == Follow(Resolve(v, pre).value.kids[i].node, post)
  {
    FirstRound(pre, post, v);
    WalksGoByChildren(pre, post, v, 0, i);
    WalksGiveRounds(pre + [STAR] + post, Begin(pre + [STAR] + post, v), i);
    DescendResolves(Start(v), pre);
    DescendFollows(AtKid(Descend(Start(v), pre), i), post);
  }

  /** A begin, get, next loop visits every match once, in the order of the children. */
  lemma {:induction false} WildcardVisitsEachMatch(pre: seq<string>, post: seq<string>, v: Node, i: nat)
    requires Regular(pre, post, v) && i < |Resolve(v, pre).value.kids|
    ensures |Rounds(pre + [STAR] + post, v)| == |Resolve(v, pre).value.kids|
    ensures Some(Rounds(pre + [STAR] + post, v)[i]) == Resolve(Resolve(v, pre).value.kids[i].node, post)
  {
    var kids, path := Resolve(v, pre).value.kids, pre + [STAR] + post;
    assert forall j :: 0 <= j < |kids| ==> Resolve(kids[j].node, post).Some? by {
      assert forall j :: 0 <= j < |kids| ==> kids[j] in kids;
    }
    WildcardVisitsInOrder(pre, post, v, i);
    FirstRound(pre, post, v);
    WalksGoByChildren(pre, post, v, 0, |kids| - 1);
    WalksGiveRounds(path, Begin(path, v), 0);
    DescendResolves(Start(v), pre);
    DescendFollows(AtKid(Descend(Start(v), pre), i), post);
  }

  /** The cursor is as deep as the path is long if and only if existsin would say yes. */
  lemma {:induction false} DepthIsPresence(c: Cursor, names: seq<string>)
    requires Sound(c)
    ensures |Descend(c, names).stk| <= |c.stk| + |names|
    ensures |Descend(c, names).stk| == |c.stk| + |names| <==> ExistsFrom(names, c)
    decreases |names|
  {
    if names != [] {
      MovesKeepSound(c, names[0]);
      DepthIsPresence(Step(c, names[0]), names[1..]);
    }
  }

  lemma {:induction false} ExistsInTwo(c: Cursor, x: seq<string>, y: seq<string>)
    requires Sound(c)
    ensures ExistsFrom(x + y, c) <==> ExistsFrom(x, c) && ExistsFrom(y, Descend(c, x))
    decreases |x|
  {
    if x == [] {
      assert x + y == y;
    } else {
      assert (x + y)[1..] == x[1..] + y;
      MovesKeepSound(c, x[0]);
      ExistsInTwo(Step(c, x[0]), x[1..], y);
    }
  }

  lemma {:induction false} DepthAtKid(pre: seq<string>, post: seq<string>, v: Node, k: nat)
    requires Rooted(pre, post, v) && k < |Resolve(v, pre).value.kids|
    ensures |RoundAt(pre, post, v, k).c.stk| == |pre + [STAR] + post| <==> Resolve(Resolve(v, pre).value.kids[k].node, post).Some?
  {
    DescendResolves(Start(v), pre);
    DepthIsPresence(Start(v), pre);
    var c := AtKid(Descend(Start(v), pre), k);
    DepthIsPresence(c, post);
    ExistsIsResolve(c, post);
  }

  /** The first round tells whether the prefix and a child of its node are there. */
  lemma DepthOfFirstRound(pre: seq<string>, post: seq<string>, v: Node)
    requires STAR !in pre && STAR !in post && |Begin(pre + [STAR] + post, v).c.stk| == |pre + [STAR] + post|
    ensures Rooted(pre, post, v)
  {
    var path := pre + [STAR] + post;
    DepthIsPresence(Start(v), path);
    assert path == pre + ([STAR] + post);
    ExistsInTwo(Start(v), pre, [STAR] + post);
    ExistsIsResolve(Start(v), pre);
    DescendResolves(Start(v), pre);
    assert ([STAR] + post)[0] == STAR;
  }

  /** Every round's cursor stands as deep as the path is long, and so at a match, exactly when
      the prefix is there, its node has a child, and every child has the rest of the path. */
  lemma EveryRoundIsAtAMatch(pre: seq<string>, post: seq<string>, v: Node)
    requires STAR !in pre && STAR !in post
    ensures var path := pre + [STAR] + post;
      Regular(pre, post, v) <==> forall w <- Walks(path, Begin(path, v)) :: |w.c.stk| == |path|
  {
    var path := pre + [STAR] + post;
    var ws := Walks(path, Begin(path, v));
    assert ws[0] in ws;
    if Regular(pre, post, v) {
      RegularIsDeep(pre, post, v);
    } else if |ws[0].c.stk| == |path| {
      DepthOfFirstRound(pre, post, v);
      var i := RaggedChild(pre, post, v);
      FirstRound(pre, post, v);
      WalksGoByChildren(pre, post, v, 0, i);
      DepthAtKid(pre, post, v, i);
      assert ws[i] in ws && |ws[i].c.stk| != |path|;
    }
  }

  /** The first child that lacks the rest of the path. */
  lemma RaggedChild(pre: seq<string>, post: seq<string>, v: Node) returns (i: nat)
    requires Rooted(pre, post, v) && !Regular(pre, post, v)
    ensures i < |Resolve(v, pre).value.kids| && Resolve(Resolve(v, pre).value.kids[i].node, post).None?
    ensures forall j :: 0 <= j < i ==> Resolve(Resolve(v, pre).value.kids[j].node, post).Some?
  {
    var kids := Resolve(v, pre).value.kids;
    i := 0;
    while i < |kids| && Resolve(kids[i].node, post).Some?
      invariant i <= |kids| && forall j :: 0 <= j < i ==> Resolve(kids[j].node, post).Some?
    {
      i := i + 1;
    }
  }

  lemma {:induction false} RegularAtKid(pre: seq<string>, post: seq<string>, v: Node, k: nat)
    requires Regular(pre, post, v)
    ensures Rooted(pre, post, v)
    ensures k < |Resolve(v, pre).value.kids| ==> Resolve(Resolve(v, pre).value.kids[k].node, post).Some?
  {
    var kids := Resolve(v, pre).value.kids;
    assert k < |kids| ==> kids[k] in kids;
  }

  lemma {:induction false} RegularWalks(pre: seq<string>, post: seq<string>, v: Node, i: nat)
    requires Regular(pre, post, v)
    ensures Rooted(pre, post, v)
    ensures var ws := Walks(pre + [STAR] + post, Begin(pre + [STAR] + post, v));
      |ws| == |Resolve(v, pre).value.kids| && (i < |ws| ==> ws[i] == RoundAt(pre, post, v, i))
  {
    hide Regular, Rooted, RoundAt, NextMatch, Sound;
    RegularAtKid(pre, post, v, 0);
    RootedHasNoStars(pre, post, v);
    var kids := Resolve(v, pre).value.kids;
    forall k | 0 <= k < |kids| ensures Resolve(kids[k].node, post).Some? {
      RegularAtKid(pre, post, v, k);
    }
    FirstRound(pre, post, v);
    WalksGoByChildren(pre, post, v, 0, |kids| - 1);
    if i < |kids| { WalksGoByChildren(pre, post, v, 0, i); }
  }

  lemma RegularIsDeep(pre: seq<string>, post: seq<string>, v: Node)
    requires Regular(pre, post, v)
    ensures var path := pre + [STAR] + post; forall w <- Walks(path, Begin(path, v)) :: |w.c.stk| == |path|
  {
    hide Regular, Rooted, RoundAt, NextMatch, Sound;
    var path := pre + [STAR] + post;
    var ws := Walks(path, Begin(path, v));
    forall i | 0 <= i < |ws| ensures |ws[i].c.stk| == |path| {
      RegularWalks(pre, post, v, i);
      RegularAtKid(pre, post, v, i);
      DepthAtKid(pre, post, v, i);
    }
  }

  /** A path without wildcard is visited once, even when it is not there: get then returns
      what the names that are there lead to. */
  lemma {:induction false} BackUpEnds(w: Walk)
    requires Sound(w.c) && STAR !in w.respos
    ensures BackUp(w).respos == []
    decreases |w.respos|
  {
    if w.respos != [] {
      MovesKeepSound(w.c, "");
      BackUpEnds(Walk(Up(w.c).0, w.respos[..|w.respos| - 1], w.cindex));
    }
  }

  lemma {:induction false} PlainPathIsVisitedOnce(path: seq<string>, v: Node)
    requires STAR !in path
    ensures Rounds(path, v) == [Descend(Start(v), path).current]
    ensures Resolve(v, path).Some? ==> Rounds(path, v) == [Resolve(v, path).value]
    ensures ExistsFrom(path, Start(v)) <==> Resolve(v, path).Some?
  {
    BackUpEnds(Begin(path, v));
    if Resolve(v, path).Some? { DescendResolves(Start(v), path); }
    ExistsIsResolve(Start(v), path);
  }

  lemma StartIsSound(v: Node)
    ensures Sound(Start(v))
  {
  }
}
