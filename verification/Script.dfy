/**
 The template engine of src/libgrace/cmdtoken.cpp in memory: tokens linked by parent, next
 and child, built line by line under a moving cursor and run by following the links. Every
 method is tied to the arena and the token tree of ScriptTree.dfy.
 */
module ScriptParser {
  import opened Wrappers
  import opened ScriptLines
  import opened Text
  import opened ScriptBuilder

  /** cmdtoken. */
  class Tok {
    const kind: Kind
    var parent: Tok?
    var next: Tok?
    var child: Tok?

    /** The parser itself. */
    constructor Root()
      ensures kind == Kind.Root && parent == null && next == null && child == null
    {
      kind, parent, next, child := Kind.Root, null, null, null;
    }

    /** The constructor links the new token behind the last child of p. */
    constructor (k: Kind, p: Tok, ghost a: Arena, ghost ts: seq<Tok>, ghost l: Links, ghost pi: nat)
      requires Spelled(a, ts, l) && Shows(ts, l) && pi < |ts| && ts[pi] == p
      modifies p`child, ts`next
      ensures kind == k && Spelled(Append(a, k, pi), ts + [this], Hung(a, ts, l, this, pi))
      ensures Shows(ts + [this], Hung(a, ts, l, this, pi))
    {
      hide Spelled, Placed;
      kind, parent, next, child := k, p, null, null;
      new;
      Apart(a, ts, l, pi);
      if p.child != null {
        var c := LastChild(p, a, ts, l, pi);
        c.next := this;
      } else {
        p.child := this;
      }
      HungIsSpelled(a, ts, l, this, pi);
    }
  }

  /** The link fields of the tokens, in the order the tokens were made. */
  datatype Links = Links(parent: seq<Tok?>, next: seq<Tok?>, child: seq<Tok?>)

  /** The link fields found in memory. */
  ghost predicate Shows(ts: seq<Tok>, l: Links)
    reads ts
  {
    && |ts| == |l.parent| == |l.next| == |l.child|
    && forall i :: 0 <= i < |ts| ==> ts[i].parent == l.parent[i] && ts[i].next == l.next[i] && ts[i].child == l.child[i]
  }

  /** The token after the j-th of the children ks. */
  ghost function After(ts: seq<Tok>, ks: seq<nat>, j: nat): Tok?
    requires forall i :: 0 <= i < |ks| ==> ks[i] < |ts|
  {
    if j + 1 < |ks| then ts[ks[j + 1]] else null
  }

  ghost predicate Chained(ts: seq<Tok>, ks: seq<nat>, next: seq<Tok?>)
    requires |next| == |ts| && forall i :: 0 <= i < |ks| ==> ks[i] < |ts|
  {
    forall j :: 0 <= j < |ks| ==> next[ks[j]] == After(ts, ks, j)
  }

  /** The links of token i are those of the arena. */
  ghost predicate Placed(a: Arena, ts: seq<Tok>, l: Links, i: nat)
    requires i < |ts| == |a.kind| == |a.parent| == |a.kids| == |l.parent| == |l.next| == |l.child|
    requires a.parent[i] < |ts|
  {
    && ts[i].kind == a.kind[i]
    && l.parent[i] == (if i == 0 then null else ts[a.parent[i]])
    && Increasing(a.kids[i]) && Children(a, i, a.kids[i])
    && l.child[i] == (if a.kids[i] == [] then null else ts[a.kids[i][0]])
    && Chained(ts, a.kids[i], l.next)
  }

  ghost predicate Spelled(a: Arena, ts: seq<Tok>, l: Links) {
    && 0 < |ts| == |a.kind| == |a.parent| == |a.kids| == |l.parent| == |l.next| == |l.child|
    && (forall i, j :: 0 <= i < j < |ts| ==> ts[i] != ts[j])
    && (forall i :: 0 <= i < |ts| ==> a.parent[i] < |ts| && Placed(a, ts, l, i))
  }

  /** The links after n is put last among the children of p. */
  ghost function Hung(a: Arena, ts: seq<Tok>, l: Links, n: Tok, p: nat): (l': Links)
    requires Spelled(a, ts, l) && p < |ts|
    ensures |l'.parent| == |l'.next| == |l'.child| == |ts| + 1
    ensures forall i :: 0 <= i < |ts| && (a.parent[i] != p || i == 0) ==> l'.next[i] == l.next[i]
    ensures forall i :: 0 <= i < |ts| ==> l'.parent[i] == l.parent[i] && (i != p ==> l'.child[i] == l.child[i])
    ensures l'.child[p] == if a.kids[p] == [] then n else l.child[p]
  {
    assert Placed(a, ts, l, p);
    var ks := a.kids[p];
    Links(l.parent + [ts[p]],
          (if ks == [] then l.next else l.next[ks[|ks| - 1] := n]) + [null],
          (if ks == [] then l.child[p := n] else l.child) + [null])
  }

  lemma ChainGrows(ts: seq<Tok>, n: Tok, ks: seq<nat>, next: seq<Tok?>)
    requires |next| == |ts| && (forall i :: 0 <= i < |ks| ==> ks[i] < |ts|) && Increasing(ks)
    requires Chained(ts, ks, next)
    ensures Chained(ts + [n], ks + [|ts|], (if ks == [] then next else next[ks[|ks| - 1] := n]) + [null])
  {
    var ks', next' := ks + [|ts|], (if ks == [] then next else next[ks[|ks| - 1] := n]) + [null];
    forall j | 0 <= j < |ks'| ensures next'[ks'[j]] == After(ts + [n], ks', j) {
      if j < |ks| { assert next[ks[j]] == After(ts, ks, j); }
    }
  }

  lemma ChainStays(ts: seq<Tok>, n: Tok, ks: seq<nat>, next: seq<Tok?>, next': seq<Tok?>)
    requires |next| == |ts| && |next'| == |ts| + 1 && forall i :: 0 <= i < |ks| ==> ks[i] < |ts|
    requires Chained(ts, ks, next)
    requires forall i :: 0 <= i < |ks| ==> next'[ks[i]] == next[ks[i]]
    ensures Chained(ts + [n], ks, next')
  {
    forall j | 0 <= j < |ks| ensures next'[ks[j]] == After(ts + [n], ks, j) {
      assert next[ks[j]] == After(ts, ks, j);
    }
  }

  lemma HungChain(a: Arena, ts: seq<Tok>, l: Links, n: Tok, p: nat)
    requires Spelled(a, ts, l) && p < |ts|
    ensures (forall i :: 0 <= i < |a.kids[p]| ==> a.kids[p][i] < |ts|)
    ensures Chained(ts + [n], a.kids[p] + [|ts|], Hung(a, ts, l, n, p).next)
  {
    assert Placed(a, ts, l, p);
    ChainGrows(ts, n, a.kids[p], l.next);
  }

  lemma HungBelow(a: Arena, ts: seq<Tok>, l: Links, n: Tok, p: nat)
    requires Spelled(a, ts, l) && p < |ts|
    ensures Placed(Append(a, n.kind, p), ts + [n], Hung(a, ts, l, n, p), p)
  {
    hide Hung, Chained;
    HungChain(a, ts, l, n, p);
    assert Placed(a, ts, l, p);
  }

  lemma HungElsewhere(a: Arena, ts: seq<Tok>, l: Links, n: Tok, p: nat, i: nat)
    requires Spelled(a, ts, l) && p < |ts| && i < |ts| && i != p
    ensures Placed(Append(a, n.kind, p), ts + [n], Hung(a, ts, l, n, p), i)
  {
    hide Hung;
    assert Placed(a, ts, l, i);
    ChainStays(ts, n, a.kids[i], l.next, Hung(a, ts, l, n, p).next);
  }

  /** Those writes spell the arena with one more token. */
  lemma HungIsSpelled(a: Arena, ts: seq<Tok>, l: Links, n: Tok, p: nat)
    requires Spelled(a, ts, l) && p < |ts| && n !in ts
    ensures Spelled(Append(a, n.kind, p), ts + [n], Hung(a, ts, l, n, p))
  {
    hide Placed;
    var a', ts', l' := Append(a, n.kind, p), ts + [n], Hung(a, ts, l, n, p);
    forall i | 0 <= i < |ts'| ensures a'.parent[i] < |ts'| && Placed(a', ts', l', i) {
      if i == p {
        HungBelow(a, ts, l, n, p);
      } else if i < |ts| {
        HungElsewhere(a, ts, l, n, p, i);
      } else {
        LeafIsPlaced(a, ts, l, n, p);
      }
    }
  }

  lemma LeafIsPlaced(a: Arena, ts: seq<Tok>, l: Links, n: Tok, p: nat)
    requires Spelled(a, ts, l) && p < |ts|
    ensures Placed(Append(a, n.kind, p), ts + [n], Hung(a, ts, l, n, p), |ts|)
  {
  }

  lemma Apart(a: Arena, ts: seq<Tok>, l: Links, p: nat)
    requires Spelled(a, ts, l) && p < |ts|
    ensures p < |a.kids| && forall i, j :: 0 <= i < j < |ts| ==> ts[i] != ts[j]
    ensures l.child[p] == null <==> a.kids[p] == []
    ensures a.kids[p] != [] ==> a.kids[p][|a.kids[p]| - 1] < |ts|
  {
    assert Placed(a, ts, l, p);
  }

  /** The walk along the children of p to the last one. */
  method LastChild(p: Tok, ghost a: Arena, ghost ts: seq<Tok>, ghost l: Links, ghost pi: nat) returns (c: Tok)
    requires Spelled(a, ts, l) && Shows(ts, l) && pi < |ts| && ts[pi] == p && p.child != null
    ensures a.kids[pi] != [] && a.kids[pi][|a.kids[pi]| - 1] < |ts| && c == ts[a.kids[pi][|a.kids[pi]| - 1]]
  {
    hide Spelled, Placed, Chained, Shows;
    ChildrenOf(a, ts, l, pi);
    ghost var ks, j := a.kids[pi], 0;
    c := p.child;
    NextOf(ts, l, ks, j);
    while c.next != null
      invariant 0 <= j < |ks| && c == ts[ks[j]] && c.next == After(ts, ks, j)
      decreases |ks| - j
    {
      c, j := c.next, j + 1;
      NextOf(ts, l, ks, j);
    }
  }

  lemma ChildrenOf(a: Arena, ts: seq<Tok>, l: Links, i: nat)
    requires Spelled(a, ts, l) && Shows(ts, l) && i < |ts|
    ensures |l.next| == |ts| == |a.kids| && (forall j :: 0 <= j < |a.kids[i]| ==> a.kids[i][j] < |ts|)
    ensures Chained(ts, a.kids[i], l.next)
    ensures ts[i].child == if a.kids[i] == [] then null else ts[a.kids[i][0]]
  {
    assert Placed(a, ts, l, i);
  }

  lemma NextOf(ts: seq<Tok>, l: Links, ks: seq<nat>, j: nat)
    requires Shows(ts, l) && |l.next| == |ts| && (forall i :: 0 <= i < |ks| ==> ks[i] < |ts|) && Chained(ts, ks, l.next) && j < |ks|
    ensures ts[ks[j]].next == After(ts, ks, j)
  {
    assert l.next[ks[j]] == After(ts, ks, j);
  }

  lemma DefineStep(b: Builder, name: string, text: string)
    requires Good(b)
    ensures |b.a.kids| > 0 && Declared(b, name).cc < |Declared(b, name).a.kids|
    ensures var d := Declared(b, name);
      && Step(b, Define(name, text)) == Ok(d.(a := Append(d.a, Data(text), d.cc), cc := b.cc))
      && Good(d.(a := Append(d.a, Data(text), d.cc), cc := b.cc))
  {
    DeclarationsKeepGood(b, Define(name, text));
  }

  /** scriptparser: the root token, and the labels with their places among its children. */
  class Parser {
    const root: Tok
    var labels: map<string, nat>
    ghost var a: Arena
    ghost var ts: seq<Tok>
    ghost var l: Links

    constructor ()
      ensures Valid() && fresh(ts) && a == Arena([Kind.Root], [0], [[]]) && labels == map[]
    {
      var r := new Tok.Root();
      root, labels := r, map[];
      a, ts, l := Arena([Kind.Root], [0], [[]]), [r], Links([null], [null], [null]);
    }

    ghost predicate Valid()
      reads this, ts
    {
      |ts| > 0 && Spelled(a, ts, l) && Shows(ts, l) && ts[0] == root
    }

    /** The cursor cc and the counter crsr of build are those of b. */
    ghost predicate At(b: Builder, cc: Tok, crsr: nat)
      reads this, ts
    {
      && Valid() && Good(b) && a == b.a && labels == b.labels && crsr == b.crsr
      && b.cc < |ts| && ts[b.cc] == cc
    }

    /** new cmdtoken (k, p) */
    method Make(k: Kind, p: Tok, ghost pi: nat) returns (t: Tok)
      requires Valid() && pi < |ts| && ts[pi] == p
      modifies this`a, this`ts, this`l, ts
      ensures Valid() && fresh(t) && ts == old(ts) + [t]
      ensures pi < |old(a).kids| && |old(a).kind| == |old(ts)| && a == Append(old(a), k, pi)
    {
      Apart(a, ts, l, pi);
      t := new Tok(k, p, a, ts, l, pi);
      l := Hung(a, ts, l, t, pi);
      a, ts := Append(a, k, pi), ts + [t];
    }

    /** What the links of a token lead to. */
    lemma Around(i: nat)
      requires Valid() && i < |ts|
      ensures |ts| == |a.kind| == |a.parent| && a.parent[i] < |ts| && ts[i].kind == a.kind[i]
      ensures i > 0 ==> ts[i].parent == ts[a.parent[i]]
      ensures i == 0 <==> ts[i].parent == null
      ensures i > 0 ==> (ts[i].parent == root <==> a.parent[i] == 0)
    {
      assert Placed(a, ts, l, i);
    }

    /** @loop, @switch, @case, and the inner token of @if: make a token and enter it. */
    method Open(k: Kind, cc: Tok, crsr: nat, ghost b: Builder) returns (cc': Tok)
      requires At(b, cc, crsr)
      modifies this`a, this`ts, this`l, ts
      ensures b.cc < |b.a.kids| && Enter(b, k).cc < |Enter(b, k).a.kids|
      ensures At(Enter(b, k), cc', crsr) && fresh(cc') && ts == old(ts) + [cc']
    {
      GrowKeepsGood(b, k);
      cc' := Make(k, cc, b.cc);
    }

    /** A token below the cursor, which stays. */
    method Leaf(k: Kind, cc: Tok, crsr: nat, ghost b: Builder)
      requires At(b, cc, crsr)
      modifies this`a, this`ts, this`l, ts
      ensures At(b.(a := Append(b.a, k, b.cc)), cc, crsr)
      ensures old(ts) <= ts && |ts| == |old(ts)| + 1 && fresh(ts[|old(ts)|])
    {
      GrowKeepsGood(b, k);
      var t := Make(k, cc, b.cc);
    }

    method Declare(name: string, cc: Tok, crsr: nat, ghost b: Builder) returns (cc': Tok, crsr': nat)
      requires At(b, cc, crsr)
      modifies this, ts
      ensures |b.a.kids| > 0 && At(Declared(b, name), cc', crsr')
      ensures ts == old(ts) + [cc'] && fresh(cc')
    {
      DeclareKeepsGood(b, name);
      cc' := Make(Nop, root, 0);
      crsr' := crsr + 1;
      labels := labels[Fold(name) := crsr'];
    }

    /** @define: the cursor does not move. */
    method DefineText(name: string, text: string, cc: Tok, crsr: nat, ghost b: Builder) returns (crsr': nat)
      requires At(b, cc, crsr)
      modifies this, ts
      ensures Step(b, Define(name, text)).Ok? && At(Step(b, Define(name, text)).value, cc, crsr')
      ensures old(ts) <= ts && forall i :: |old(ts)| <= i < |ts| ==> fresh(ts[i])
    {
      hide Step, Append, Spelled, Shows;
      DefineStep(b, name, text);
      var t;
      t, crsr' := Declare(name, cc, crsr, b);
      Leaf(Data(text), t, crsr', Declared(b, name));
    }

    /** The tests on cc->parent: none, or the parser. */
    method AtTopOf(cc: Tok, crsr: nat, ghost b: Builder) returns (top: bool)
      requires At(b, cc, crsr)
      ensures top <==> AtTop(b, b.cc)
      ensures !top ==> cc.parent != null && b.a.parent[b.cc] < |ts| && cc.parent == ts[b.a.parent[b.cc]]
      ensures !top ==> cc.parent.kind == b.a.kind[b.a.parent[b.cc]] && 0 < b.a.parent[b.cc]
    {
      Around(b.cc);
      top := cc.parent == null || cc.parent == root;
      if !top { Around(b.a.parent[b.cc]); }
    }

    /** @endloop */
    method CloseLoopAt(cc: Tok, crsr: nat, ghost b: Builder) returns (cc': Tok)
      requires At(b, cc, crsr)
      ensures Step(b, CloseLoop).Ok? && At(Step(b, CloseLoop).value, cc', crsr)
    {
      MovesKeepGood(b, CloseLoop);
      var top := AtTopOf(cc, crsr, b);
      cc' := if top then cc else cc.parent;
    }

    /** @else: from one branch of a condition into a new one. */
    method ElseAt(cc: Tok, crsr: nat, ghost b: Builder) returns (ok: bool, cc': Tok)
      requires At(b, cc, crsr)
      modifies this`a, this`ts, this`l, ts
      ensures match Step(b, Else) case Ok(b') => ok && At(b', cc', crsr) case Err(_) => !ok && At(b, cc, crsr)
      ensures old(ts) <= ts && forall i :: |old(ts)| <= i < |ts| ==> fresh(ts[i])
    {
      hide Spelled, Shows, Append;
      var top := AtTopOf(cc, crsr, b);
      if top || !cc.parent.kind.Cond? { return false, cc; }
      ok := true;
      UpKeepsGood(b);
      cc' := Open(Nop, cc.parent, crsr, b.(cc := b.a.parent[b.cc]));
    }

    /** @endif */
    method CloseIfAt(cc: Tok, crsr: nat, ghost b: Builder) returns (ok: bool, cc': Tok)
      requires At(b, cc, crsr)
      ensures match Step(b, CloseIf) case Ok(b') => ok && At(b', cc', crsr) case Err(_) => !ok
    {
      hide Spelled, Shows;
      MovesKeepGood(b, CloseIf);
      var top := AtTopOf(cc, crsr, b);
      if top || !cc.parent.kind.Cond? { return false, cc; }
      Around(b.a.parent[b.cc]);
      if cc.parent.parent == null { return false, cc; }
      ok, cc' := true, cc.parent.parent;
    }

    /** The switch that cc is or, as a case, is in. */
    method SwitchOf(cc: Tok, crsr: nat, ghost b: Builder) returns (ok: bool, sw: Tok, ghost i: nat)
      requires At(b, cc, crsr)
      ensures i < |b.a.kind| == |b.a.parent| && i == if b.a.kind[b.cc].Case? then b.a.parent[b.cc] else b.cc
      ensures ok <==> !(b.a.kind[b.cc].Case? && AtTop(b, b.cc)) && b.a.kind[i].Switch?
      ensures ok ==> At(b.(cc := i), sw, crsr)
    {
      hide Shows, Spelled, AtTop;
      Around(b.cc);
      i, sw := b.cc, cc;
      if cc.kind.Case? {
        i := b.a.parent[b.cc];
        var top := AtTopOf(cc, crsr, b);
        if top { return false, sw, i; }
        sw := cc.parent;
        Around(i);
      }
      ok := sw.kind.Switch?;
    }

    /** One line of the source. */
    method Line(line: string, cc: Tok, crsr: nat, ghost b: Builder) returns (ok: bool, cc': Tok, crsr': nat)
      requires At(b, cc, crsr)
      modifies this, ts
      ensures match Step(b, Classify(line)) case Ok(b') => ok && At(b', cc', crsr') case Err(_) => !ok && At(b, cc, crsr)
      ensures old(ts) <= ts && forall i :: |old(ts)| <= i < |ts| ==> fresh(ts[i])
    {
      hide Classify, At;
      var c := Classify(line);
      ok, cc', crsr' := true, cc, crsr;
      match c
      case TextLine(text) => Leaf(Data(text), cc, crsr, b);
      case Assign(args) => Leaf(Set(args), cc, crsr, b);
      case Section(name) => cc', crsr' := Declare(name, cc, crsr, b);
      case Define(name, text) => crsr' := DefineText(name, text, cc, crsr, b);
      case OpenLoop(rows) => cc' := Open(Loop(rows), cc, crsr, b);
      case CloseLoop => cc' := CloseLoopAt(cc, crsr, b);
      case OpenIf(test) =>
        cc' := Open(Cond(test), cc, crsr, b);
        cc' := Open(Nop, cc', crsr, Enter(b, Cond(test)));
      case Else => ok, cc' := ElseAt(cc, crsr, b);
      case CloseIf => ok, cc' := CloseIfAt(cc, crsr, b);
      case OpenSwitch(key) => cc' := Open(Switch(key), cc, crsr, b);
      case CloseSwitch => ok, cc' := CloseSwitchAt(cc, crsr, b);
      case OpenCase(value) => ok, cc' := OpenCaseAt(value, cc, crsr, b);
      case Unknown =>
    }

    /** @endswitch leaves the cursor on the switch. */
    method CloseSwitchAt(cc: Tok, crsr: nat, ghost b: Builder) returns (ok: bool, cc': Tok)
      requires At(b, cc, crsr)
      ensures match Step(b, CloseSwitch) case Ok(b') => ok && At(b', cc', crsr) case Err(_) => !ok
    {
      var top := AtTopOf(cc, crsr, b);
      if top { return false, cc; }
      ghost var i;
      ok, cc', i := SwitchOf(cc, crsr, b);
    }

    /** @case */
    method OpenCaseAt(value: string, cc: Tok, crsr: nat, ghost b: Builder) returns (ok: bool, cc': Tok)
      requires At(b, cc, crsr)
      modifies this`a, this`ts, this`l, ts
      ensures match Step(b, OpenCase(value)) case Ok(b') => ok && At(b', cc', crsr) case Err(_) => !ok && At(b, cc, crsr)
      ensures old(ts) <= ts && forall i :: |old(ts)| <= i < |ts| ==> fresh(ts[i])
    {
      hide Spelled, Shows, Append;
      ghost var i;
      ok, cc', i := SwitchOf(cc, crsr, b);
      if ok { cc' := Open(Case(value), cc', crsr, b.(cc := i)); }
    }

    /** The first block, which has no label. */
    method FirstBlock() returns (cc: Tok, crsr: nat)
      requires Valid() && a == Arena([Kind.Root], [0], [[]]) && labels == map[]
      modifies this`a, this`ts, this`l, ts
      ensures Good(START) && At(START, cc, crsr) && crsr == 0
      ensures forall i :: 0 <= i < |ts| ==> ts[i] in old(ts) || fresh(ts[i])
    {
      hide Shows, Spelled;
      crsr := 0;
      cc := Make(Nop, root, 0);
      StartIsFirst();
    }

    lemma AtIs(b: Builder, cc: Tok, crsr: nat)
      requires At(b, cc, crsr)
      ensures Valid() && a == b.a && labels == b.labels
    {
    }

    /** scriptparser::build on a fresh parser: false when it throws. */
    method BuildFrom(src: string) returns (ok: bool)
      requires Valid() && a == Arena([Kind.Root], [0], [[]]) && labels == map[]
      modifies this, ts
      ensures Valid()
      ensures match Build(src)
        case Ok(b) => ok && a == b.a && labels == b.labels
        case Err(b) => !ok && a == b.a && labels == b.labels
    {
      hide Step, Classify, At, Wf, Good;
      var cc, crsr := FirstBlock();
      var lines := Split(src, '\n');
      ghost var b := START;
      var k := 0;
      while k < |lines|
        invariant k <= |lines| && Good(b) && At(b, cc, crsr)
        invariant BuildLines(b, lines[k..]) == Build(src)
        invariant forall i :: 0 <= i < |ts| ==> ts[i] in old(ts) || fresh(ts[i])
      {
        ghost var c := Classify(lines[k]);
        GoodFits(b);
        StepKeepsGood(b, c);
        assert lines[k..][1..] == lines[k + 1..];
        ghost var was, n := cc, crsr;
        ok, cc, crsr := Line(lines[k], cc, crsr, b);
        if !ok {
          AtIs(b, was, n);
          return;
        }
        b := Step(b, c).value;
        k := k + 1;
      }
      AtIs(b, cc, crsr);
      ok := true;
    }
  }

  lemma StartIsFirst()
    ensures START.a == Append(Arena([Kind.Root], [0], [[]]), Nop, 0) && Good(START)
  {
    var kids: seq<seq<nat>> := [[]];
    calc {
      kids[0 := kids[0] + [1]] + [[]];
      { assert kids[0] + [1] == [1]; }
      kids[0 := [1]] + [[]];
      [[1]] + [[]];
      [[1], []];
    }
    var a := Arena([Kind.Root], [0], [[]]);
    assert Wf(a) by { assert Increasing(a.kids[0]) && Children(a, 0, a.kids[0]); }
    AppendKeepsWf(a, Nop, 0);
    hide Wf;
  }
}

/** Running the linked tokens. */
module ScriptRunner {
  import opened Text
  import opened ScriptBuilder
  import opened ScriptMeaning
  import opened ScriptParser
  import opened ScriptRoundTrip
  import opened ScriptSources
  import opened Numbers

  /** The children of token i, found from its child along next. */
  lemma {:induction false} KidsOf(a: Arena, ts: seq<Tok>, l: Links, i: nat)
    requires Wf(a) && Spelled(a, ts, l) && i < |ts|
    ensures |ts| == |a.kind| == |a.kids| == |l.child| == |l.next| && |TokenAt(a, i).kids| == |a.kids[i]|
    ensures forall j :: 0 <= j < |a.kids[i]| ==> i < a.kids[i][j] < |ts| && TokenAt(a, i).kids[j] == TokenAt(a, a.kids[i][j])
    ensures l.child[i] == if a.kids[i] == [] then null else ts[a.kids[i][0]]
    ensures Chained(ts, a.kids[i], l.next)
    ensures forall j :: 0 <= j < |a.kids[i]| ==> ts[a.kids[i][j]].kind == a.kind[a.kids[i][j]]
    ensures TokenAt(a, i).kind == ts[i].kind
  {
    assert Placed(a, ts, l, i);
    forall j | 0 <= j < |a.kids[i]| ensures ts[a.kids[i][j]].kind == a.kind[a.kids[i][j]] {
      assert Placed(a, ts, l, a.kids[i][j]);
    }
  }

  /** The variable space and the output that the run methods write to. Where a text calls
      another section, which the model leaves out, called is set and everything stops. */
  class Runner<Env, Val> {
    const ops: Ops<Env, Val>
    var env: Env
    var buf: string
    var called: bool

    constructor (ops: Ops<Env, Val>, env: Env)
      ensures this.ops == ops && this.env == env && buf == "" && !called
    {
      this.ops, this.env, buf, called := ops, env, "", false;
    }

    ghost function State(): Outcome<Env>
      reads this
    {
      if called then Calls else Done(env, buf)
    }

    /** cmdtoken_data::run */
    method RunData(line: string, last: bool)
      requires !called
      modifies this
      ensures State() == Emit(ops, line, last, old(env), old(buf))
    {
      var (e, dat) := Filled(ops, line, env);
      if HasCall(dat) { called := true; return; }
      env, buf := e, buf + dat;
      if last { return; }
      buf := buf + "\n";
    }

    /** The run method that the kind of the token selects. */
    method RunTok(t: Tok, ghost a: Arena, ghost ts: seq<Tok>, ghost l: Links, ghost i: nat)
      requires !called && Wf(a) && Spelled(a, ts, l) && Shows(ts, l) && i < |ts| && ts[i] == t
      modifies this
      ensures State() == RunToken(ops, TokenAt(a, i), t.next == null, old(env), old(buf))
      decreases |a.kind| - i, 2, 0
    {
      hide Wf, Spelled, Emit, Shows, Chained;
      KidsOf(a, ts, l, i);
      match t.kind
      case Data(line) => RunData(line, t.next == null);
      case Set(args) => env := ops.assign(env, args);
      case Loop(name) =>
        var rows := Find(name);
        RunLoop(t, rows, a, ts, l, i);
      case Cond(test) => RunIf(t, test, a, ts, l, i);
      case Switch(key) => RunSwitch(t, key, a, ts, l, i);
      case _ => RunKids(t, a, ts, l, i);
    }

    /** The condition of @if */
    method Test(test: string) returns (yes: bool)
      modifies this`env
      ensures (env, yes) == Tested(ops, test, old(env))
    {
      var words := ops.words(test);
      var (e, left) := Filled(ops, Word(words, 0), env);
      env := e;
      if |words| == 1 { return left != ""; }
      var (e', right) := Filled(ops, Word(words, 2), env);
      env := e';
      yes := Compared(ops, left, Word(words, 1), right);
    }

    /** The rows of the loop variable */
    method Find(name: string) returns (rows: seq<Row<Val>>)
      modifies this`env
      ensures (env, rows) == Found(ops, name, old(env))
    {
      var (e, n) := Filled(ops, name, env);
      var (e', found) := ops.rows(e, n);
      env, rows := ops.put(e', "_loopcount", ops.number(|found|)), found;
    }

    /** One row is put in the variable space. */
    method Bind(row: Row<Val>)
      modifies this`env
      ensures env == Bound(ops, row, old(env))
    {
      if row.name.Some? { env := ops.put(env, "@", ops.text(row.name.value)); }
      if row.vars == [] { env := ops.put(env, "0", row.value); }
      var j := 0;
      while j < |row.vars|
        invariant j <= |row.vars| && BoundFrom(ops, row.vars, j, env) == Bound(ops, row, old(env))
      {
        var x := row.vars[j];
        if x.leaf { env := ops.put(env, Dec(j), x.value); }
        env := ops.put(env, x.id, x.value);
        j := j + 1;
      }
    }

    /** cmdtoken_if::run: the first child, or the one after it. */
    method RunIf(t: Tok, test: string, ghost a: Arena, ghost ts: seq<Tok>, ghost l: Links, ghost i: nat)
      requires !called && Wf(a) && Spelled(a, ts, l) && Shows(ts, l) && i < |ts| && ts[i] == t && t.kind == Cond(test)
      modifies this
      ensures State() == RunToken(ops, TokenAt(a, i), t.next == null, old(env), old(buf))
      decreases |a.kind| - i, 1, 0
    {
      hide Wf, Spelled, Shows, Chained;
      KidsOf(a, ts, l, i);
      ChildrenOf(a, ts, l, i);
      ghost var ks := a.kids[i];
      if |ks| > 0 { NextOf(ts, l, ks, 0); }
      if |ks| > 1 { NextOf(ts, l, ks, 1); }
      var yes := Test(test);
      var c := t.child;
      if c != null && !yes { c := c.next; }
      if c != null { RunTok(c, a, ts, l, ks[if yes then 0 else 1]); }
    }

    /** cmdtoken::run: the children in order. */
    method RunKids(t: Tok, ghost a: Arena, ghost ts: seq<Tok>, ghost l: Links, ghost i: nat)
      requires !called && Wf(a) && Spelled(a, ts, l) && Shows(ts, l) && i < |ts| && ts[i] == t
      modifies this
      ensures State() == RunTokens(ops, TokenAt(a, i).kids, old(env), old(buf))
      decreases |a.kind| - i, 0, 0
    {
      hide Wf, Spelled, Shows, Chained;
      KidsOf(a, ts, l, i);
      ChildrenOf(a, ts, l, i);
      ghost var ks, kids := a.kids[i], TokenAt(a, i).kids;
      var c := t.child;
      ghost var j := 0;
      assert kids[0..] == kids;
      while c != null
        invariant 0 <= j <= |ks| && c == (if j < |ks| then ts[ks[j]] else null)
        invariant !called && RunTokens(ops, kids[j..], env, buf) == RunTokens(ops, kids, old(env), old(buf))
        decreases |ks| - j
      {
        NextOf(ts, l, ks, j);
        assert kids[j..][1..] == kids[j + 1..] && kids[j..][0] == TokenAt(a, ks[j]);
        RunTok(c, a, ts, l, ks[j]);
        if called { return; }
        c, j := c.next, j + 1;
      }
    }

    /** cmdtoken_loop::run: the children once a row. */
    method RunLoop(t: Tok, rows: seq<Row<Val>>, ghost a: Arena, ghost ts: seq<Tok>, ghost l: Links, ghost i: nat)
      requires !called && Wf(a) && Spelled(a, ts, l) && Shows(ts, l) && i < |ts| && ts[i] == t
      modifies this
      ensures State() == RunRows(ops, rows, TokenAt(a, i).kids, old(env), old(buf))
      decreases |a.kind| - i, 1, 0
    {
      ghost var kids := TokenAt(a, i).kids;
      var k := 0;
      assert rows[0..] == rows;
      while k < |rows|
        invariant k <= |rows| && !called
        invariant RunRows(ops, rows[k..], kids, env, buf) == RunRows(ops, rows, kids, old(env), old(buf))
      {
        assert rows[k..][1..] == rows[k + 1..];
        Bind(rows[k]);
        RunKids(t, a, ts, l, i);
        if called { return; }
        k := k + 1;
      }
    }

    /** cmdtoken_switch::run: the first case whose label is the value of the key. */
    method RunSwitch(t: Tok, key: string, ghost a: Arena, ghost ts: seq<Tok>, ghost l: Links, ghost i: nat)
      requires !called && Wf(a) && Spelled(a, ts, l) && Shows(ts, l) && i < |ts| && ts[i] == t
      modifies this
      ensures State() == RunCases(ops, key, TokenAt(a, i).kids, old(env), old(buf))
      decreases |a.kind| - i, 0, 0
    {
      hide Wf, Spelled, Shows, Chained;
      KidsOf(a, ts, l, i);
      ChildrenOf(a, ts, l, i);
      ghost var ks, kids := a.kids[i], TokenAt(a, i).kids;
      var c := t.child;
      ghost var j := 0;
      assert kids[0..] == kids;
      while c != null
        invariant 0 <= j <= |ks| && c == (if j < |ks| then ts[ks[j]] else null)
        invariant !called && RunCases(ops, key, kids[j..], env, buf) == RunCases(ops, key, kids, old(env), old(buf))
        decreases |ks| - j
      {
        NextOf(ts, l, ks, j);
        assert kids[j..][1..] == kids[j + 1..] && kids[j..][0] == TokenAt(a, ks[j]);
        if c.kind.Case? {
          var (e, v) := ops.lookup(env, key);
          env := e;
          if v == c.kind.value {
            RunTok(c, a, ts, l, ks[j]);
            return;
          }
        }
        c, j := c.next, j + 1;
      }
    }

    /** scriptparser::run (label). A label that was never declared is created, with 0, by
        the lookup itself, so that sectionexists says yes from then on. */
    method RunSection(p: Parser, section: string, ghost b: Builder)
      requires !called && p.Valid() && Good(b) && p.a == b.a && p.labels == b.labels
      modifies this, p`labels
      ensures State() == Run(ops, b, section, old(env), old(buf))
      ensures p.labels == if Fold(section) in old(p.labels) then old(p.labels) else old(p.labels)[Fold(section) := 0]
    {
      hide Wf, Spelled;
      if Fold(section) !in p.labels { p.labels := p.labels[Fold(section) := 0]; }
      var pos := p.labels[Fold(section)];
      KidsOf(p.a, p.ts, p.l, 0);
      ghost var ks := p.a.kids[0];
      assert ks != [];
      var c := p.root.child;
      for i := 0 to pos
        invariant i < |ks| && c == p.ts[ks[i]]
      {
        assert p.l.next[ks[i]] == After(p.ts, ks, i);
        if c != null { c := c.next; }
      }
      if c != null { RunTok(c, p.a, p.ts, p.l, ks[pos]); }
    }
  }

  /** Looking a missing label up changes no label's target. */
  lemma LookupKeepsTargets(b: Builder, section: string, l: string)
    requires Good(b) && Fold(section) !in b.labels
    ensures Good(b.(labels := b.labels[Fold(section) := 0]))
    ensures Target(b.(labels := b.labels[Fold(section) := 0]), l) == Target(b, l)
  {
  }

  /** A source in any spelling, built and run in memory, gives what it means. */
  method Render<Env, Val>(ops: Ops<Env, Val>, ghost t: Template, src: string, section: string, env: Env)
    returns (r: Runner<Env, Val>)
    requires WellFormedTemplate(t) && Says(src, t)
    ensures r.State() == Meaning(ops, t, src, section, env, "")
  {
    var p := new Parser();
    BuildThenRunIsEval(ops, t, src, section, env, "");
    var ok := p.BuildFrom(src);
    r := new Runner(ops, env);
    r.RunSection(p, section, Build(src).value);
  }
}
