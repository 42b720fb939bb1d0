/**
 Script sources as people write them: commands may be indented and have idle arguments,
 unknown commands are ignored, and @define may stand anywhere (src/libgrace/cmdtoken.cpp).
 */
module ScriptCommands {
  import opened Wrappers
  import opened Text
  import opened ScriptLines
  import opened ScriptBuilder

  /** What build sees of the lines; it does nothing for an unknown command. */
  function Commands(lines: seq<string>): (cs: seq<Command>)
    ensures forall c <- cs :: c != Unknown
  {
    if lines == [] then []
    else (if Classify(lines[0]) == Unknown then [] else [Classify(lines[0])]) + Commands(lines[1..])
  }

  function BuildCommands(b: Builder, cs: seq<Command>): (r: Result<Builder, Builder>)
    requires Good(b)
    ensures Good(if r.Ok? then r.value else r.error)
    decreases |cs|
  {
    if cs == [] then Ok(b)
    else
      StepKeepsGood(b, cs[0]);
      match Step(b, cs[0])
      case Err(e) => Err(e)
      case Ok(next) => BuildCommands(next, cs[1..])
  }

  lemma UnknownIsIdle(b: Builder)
    requires Good(b)
    ensures Step(b, Unknown) == Ok(b)
  {
  }

  lemma {:induction false} LinesAreCommands(b: Builder, lines: seq<string>)
    requires Good(b)
    ensures BuildLines(b, lines) == BuildCommands(b, Commands(lines))
    decreases |lines|
  {
    hide Step, Classify, Wf, Good;
    if lines != [] {
      var c := Classify(lines[0]);
      GoodFits(b);
      StepKeepsGood(b, c);
      UnknownIsIdle(b);
      if c == Unknown {
        assert Commands(lines) == Commands(lines[1..]);
      } else {
        assert Commands(lines)[0] == c && Commands(lines)[1..] == Commands(lines[1..]);
      }
      if Step(b, c).Ok? { LinesAreCommands(Step(b, c).value, lines[1..]); }
    }
  }

  /** Without the definitions. */
  function Blocks(cs: seq<Command>): seq<Command> {
    if cs == [] then [] else (if cs[0].Define? then [] else [cs[0]]) + Blocks(cs[1..])
  }

  /** The texts of the labels whose last declaration is a definition. */
  function KnownAfter(c: Command, known: map<string, string>): map<string, string> {
    match c
    case Define(name, text) => known[Fold(name) := text]
    case Section(name) => known - {Fold(name)}
    case _ => known
  }

  function Definitions(cs: seq<Command>, known: map<string, string>): map<string, string>
    decreases |cs|
  {
    if cs == [] then known
    else
      Definitions(cs[1..], KnownAfter(cs[0], known))
  }
}

/** Definitions do not disturb what is built around them. */
module ScriptDefinitions {
  import opened Wrappers
  import opened Text
  import opened ScriptLines
  import opened ScriptBuilder
  import opened ScriptCommands

  function Mapped(f: seq<nat>, ks: seq<nat>): (r: seq<nat>)
    requires forall j :: 0 <= j < |ks| ==> ks[j] < |f|
    ensures |r| == |ks| && forall j :: 0 <= j < |ks| ==> r[j] == f[ks[j]]
  {
    seq(|ks|, j requires 0 <= j < |ks| => f[ks[j]])
  }

  /** Token i of a2 is token f[i] of a, which may have more; below the parser these have the
      same children. */
  ghost predicate Copies(a2: Arena, a: Arena, f: seq<nat>) {
    && |f| == |a2.kind| == |a2.parent| == |a2.kids| && |a.kind| == |a.parent| == |a.kids|
    && f != [] && f[0] == 0
    && (forall i, j :: 0 <= i < j < |f| ==> f[i] < f[j])
    && (forall i :: 0 <= i < |f| ==> Copied(a2, a, f, i))
  }

  ghost predicate Copied(a2: Arena, a: Arena, f: seq<nat>, i: nat)
    requires i < |f| == |a2.kind| == |a2.parent| == |a2.kids| && |a.kind| == |a.parent| == |a.kids|
  {
    && f[i] < |a.kind| && a.kind[f[i]] == a2.kind[i]
    && a2.parent[i] < |f| && a.parent[f[i]] == f[a2.parent[i]]
    && (forall j :: 0 <= j < |a2.kids[i]| ==> a2.kids[i][j] < |f|)
    && (i > 0 ==> a.kids[f[i]] == Mapped(f, a2.kids[i]))
  }

  lemma CopyGrows(a2: Arena, a: Arena, f: seq<nat>, k: Kind, p: nat)
    requires Copies(a2, a, f) && p < |f| && Copied(a2, a, f, p)
    ensures f[p] < |a.kids|
    ensures Copies(Append(a2, k, p), Append(a, k, f[p]), f + [|a.kind|])
  {
    var a2', a', f' := Append(a2, k, p), Append(a, k, f[p]), f + [|a.kind|];
    forall i | 0 <= i < |f'| ensures Copied(a2', a', f', i) {
      if i < |f| {
        assert Copied(a2, a, f, i);
        assert i < p ==> f[i] < f[p];
        assert p < i ==> f[p] < f[i];
        if i == p && i > 0 { assert Mapped(f', a2'.kids[i]) == Mapped(f, a2.kids[i]) + [|a.kind|]; }
        if i != p && i > 0 { assert Mapped(f', a2'.kids[i]) == Mapped(f, a2.kids[i]); }
      } else {
        assert a'.kids[f'[i]] == [] && a2'.kids[i] == [];
      }
    }
    forall i, j | 0 <= i < j < |f'| ensures f'[i] < f'[j] {
      assert Copied(a2, a, f, i);
    }
  }

  /** Tokens that are no copies, below the parser. */
  lemma CopyStays(a2: Arena, a: Arena, f: seq<nat>, k: Kind, p: nat)
    requires Copies(a2, a, f) && p < |a.kind| && (p == 0 || p !in f)
    ensures Copies(a2, Append(a, k, p), f)
  {
    forall i | 0 <= i < |f| ensures Copied(a2, Append(a, k, p), f, i) {
      assert Copied(a2, a, f, i);
      assert i > 0 ==> f[i] > f[0];
      assert f[i] in f;
    }
  }

  lemma {:induction false} CopiesMeanTheSame(a2: Arena, a: Arena, f: seq<nat>, i: nat)
    requires Copies(a2, a, f) && Wf(a2) && Wf(a) && 0 < i < |f| && f[i] < |a.kind|
    ensures TokenAt(a, f[i]) == TokenAt(a2, i)
    decreases |f| - i
  {
    assert Copied(a2, a, f, i) && Children(a2, i, a2.kids[i]);
    forall j | 0 <= j < |a2.kids[i]| ensures TokenAt(a, a.kids[f[i]][j]) == TokenAt(a2, a2.kids[i][j]) {
      CopiesMeanTheSame(a2, a, f, a2.kids[i][j]);
    }
  }

  /** Token d is a definition of text. */
  ghost predicate Defines(a: Arena, f: seq<nat>, d: nat, text: string)
    requires |a.kind| == |a.kids|
  {
    && d + 1 < |a.kind| && d !in f && d + 1 !in f
    && a.kind[d] == Nop && a.kids[d] == [d + 1] && a.kind[d + 1] == Data(text) && a.kids[d + 1] == []
  }

  lemma {:induction false} DefinitionMeans(a: Arena, f: seq<nat>, d: nat, text: string)
    requires Wf(a) && Defines(a, f, d, text)
    ensures TokenAt(a, d) == Token(Nop, [Token(Data(text), [])])
  {
    assert TokenAt(a, d).kids[0] == TokenAt(a, d + 1);
    assert TokenAt(a, d + 1) == Token(Data(text), []);
  }

  /** What a label stands for in both. */
  ghost predicate SameLabel(b2: Builder, b: Builder, f: seq<nat>, known: map<string, string>, n: string)
    requires Good(b2) && Good(b) && |f| == |b2.a.kind|
  {
    && (n in b.labels <==> n in b2.labels || n in known)
    && (n in known ==> n in b.labels && Defines(b.a, f, b.a.kids[0][b.labels[n]], known[n]))
    && (n in b2.labels && n !in known ==> b.a.kids[0][b.labels[n]] == f[b2.a.kids[0][b2.labels[n]]])
  }

  ghost predicate Alike(b2: Builder, b: Builder, f: seq<nat>, known: map<string, string>) {
    && Good(b2) && Good(b) && Copies(b2.a, b.a, f) && b.cc == f[b2.cc]
    && b.a.kids[0][0] == f[b2.a.kids[0][0]]
    && forall n :: SameLabel(b2, b, f, known, n)
  }

  /** A definition is not touched by a new token elsewhere. */
  lemma DefinitionStays(a: Arena, f: seq<nat>, d: nat, text: string, k: Kind, p: nat, f': seq<nat>)
    requires |a.kind| == |a.parent| == |a.kids| && p < |a.kids| && Defines(a, f, d, text)
    requires p != d && p != d + 1 && (f' == f || f' == f + [|a.kind|])
    ensures Defines(Append(a, k, p), f', d, text)
  {
  }

  lemma LabelGrows(b2: Builder, b: Builder, f: seq<nat>, known: map<string, string>, k: Kind, n: string)
    requires Good(b2) && Good(b) && Copies(b2.a, b.a, f) && b.cc == f[b2.cc] && SameLabel(b2, b, f, known, n)
    ensures var c2, c := b2.(a := Append(b2.a, k, b2.cc)), b.(a := Append(b.a, k, b.cc));
      Good(c2) && Good(c) && SameLabel(c2, c, f + [|b.a.kind|], known, n)
  {
    GrowKeepsGood(b2, k);
    GrowKeepsGood(b, k);
    if n in known {
      var d := b.a.kids[0][b.labels[n]];
      assert f[b2.cc] in f;
      DefinitionStays(b.a, f, d, known[n], k, b.cc, f + [|b.a.kind|]);
    }
  }

  lemma AlikeGrows(b2: Builder, b: Builder, f: seq<nat>, known: map<string, string>, k: Kind)
    requires Alike(b2, b, f, known)
    ensures Alike(b2.(a := Append(b2.a, k, b2.cc)), b.(a := Append(b.a, k, b.cc)), f + [|b.a.kind|], known)
    ensures Alike(Enter(b2, k), Enter(b, k), f + [|b.a.kind|], known)
  {
    hide SameLabel, Wf;
    GrowKeepsGood(b2, k);
    GrowKeepsGood(b, k);
    CopyGrows(b2.a, b.a, f, k, b2.cc);
    var c2, c := b2.(a := Append(b2.a, k, b2.cc)), b.(a := Append(b.a, k, b.cc));
    forall n ensures SameLabel(c2, c, f + [|b.a.kind|], known, n) {
      LabelGrows(b2, b, f, known, k, n);
    }
    forall n ensures SameLabel(Enter(b2, k), Enter(b, k), f + [|b.a.kind|], known, n) {
      LabelIsAside(c2, c, f + [|b.a.kind|], known, n, |b2.a.kind|, |b.a.kind|);
    }
  }

  /** Labels do not depend on the cursor. */
  lemma LabelIsAside(b2: Builder, b: Builder, f: seq<nat>, known: map<string, string>, n: string, to2: nat, to: nat)
    requires Good(b2) && Good(b) && |f| == |b2.a.kind| && SameLabel(b2, b, f, known, n)
    requires 0 < to2 < |b2.a.kind| && 0 < to < |b.a.kind|
    ensures SameLabel(b2.(cc := to2), b.(cc := to), f, known, n)
  {
  }

  lemma AlikeMoves(b2: Builder, b: Builder, f: seq<nat>, known: map<string, string>, to: nat)
    requires Alike(b2, b, f, known) && 0 < to < |f|
    ensures f[to] < |b.a.kind| && Alike(b2.(cc := to), b.(cc := f[to]), f, known)
  {
    hide SameLabel, Wf;
    assert Copied(b2.a, b.a, f, to) && f[to] > f[0];
    forall n ensures SameLabel(b2.(cc := to), b.(cc := f[to]), f, known, n) {
      LabelIsAside(b2, b, f, known, n, to, f[to]);
    }
  }

  /** Where the cursor is, above it, and above that, both builders see the same. */
  lemma SameAround(b2: Builder, b: Builder, f: seq<nat>, known: map<string, string>, i: nat)
    requires Alike(b2, b, f, known) && i < |f|
    ensures f[i] < |b.a.kind| == |b.a.parent| && |f| == |b2.a.kind| == |b2.a.parent| && b2.a.parent[i] < |f|
    ensures b.a.kind[f[i]] == b2.a.kind[i] && b.a.parent[f[i]] == f[b2.a.parent[i]]
    ensures f[i] == 0 <==> i == 0
    ensures f[b2.a.parent[i]] == 0 <==> b2.a.parent[i] == 0
  {
    assert Copied(b2.a, b.a, f, i);
    assert i > 0 ==> f[i] > f[0];
    assert b2.a.parent[i] > 0 ==> f[b2.a.parent[i]] > f[0];
  }

  /** A line that moves the cursor, or opens a token above it. */
  lemma MovesAreAlike(b2: Builder, b: Builder, f: seq<nat>, known: map<string, string>, c: Command) returns (f': seq<nat>)
    requires Alike(b2, b, f, known) && Step(b2, c).Ok?
    requires c.CloseLoop? || c.Else? || c.CloseIf? || c.CloseSwitch? || c.OpenCase?
    ensures Step(b, c).Ok? && Alike(Step(b2, c).value, Step(b, c).value, f', known)
  {
    hide Alike;
    f' := f;
    var cc := b2.cc;
    AlikeIsGood(b2, b, f, known);
    SameAround(b2, b, f, known, cc);
    var up := b2.a.parent[cc];
    SameAround(b2, b, f, known, up);
    if AtTop(b2, cc) { return; }
    AlikeMoves(b2, b, f, known, up);
    match c
    case CloseLoop =>
    case Else =>
      AlikeGrows(b2.(cc := up), b.(cc := f[up]), f, known, Nop);
      f' := f + [|b.a.kind|];
    case CloseIf =>
      ParentOfNested(b2, up);
      AlikeMoves(b2, b, f, known, b2.a.parent[up]);
    case CloseSwitch =>
    case OpenCase(value) =>
      if b2.a.kind[cc].Case? {
        AlikeGrows(b2.(cc := up), b.(cc := f[up]), f, known, Case(value));
      } else {
        AlikeGrows(b2, b, f, known, Case(value));
      }
      f' := f + [|b.a.kind|];
  }

  lemma AlikeIsGood(b2: Builder, b: Builder, f: seq<nat>, known: map<string, string>)
    requires Alike(b2, b, f, known)
    ensures Good(b2) && Good(b) && b2.cc < |f| && b.cc == f[b2.cc]
  {
  }

  /** A condition is not the parser. */
  lemma ParentOfNested(b: Builder, i: nat)
    requires Good(b) && i < |b.a.kind| && b.a.kind[i].Cond?
    ensures 0 < b.a.parent[i] < |b.a.kind|
  {
    assert b.a.kind[0] == Root;
    assert i in b.a.kids[b.a.parent[i]];
    assert forall k <- b.a.kids[0] :: b.a.kind[k] == Nop;
  }

  lemma LabelOutlives(b2: Builder, b: Builder, f: seq<nat>, known: map<string, string>, n: string, name: string)
    requires Good(b2) && Good(b) && Copies(b2.a, b.a, f) && SameLabel(b2, b, f, known, n)
    ensures var d2, d := Declared(b2, name), Declared(b, name);
      Good(d2) && Good(d) && SameLabel(d2, d, f + [|b.a.kind|], known - {Fold(name)}, n)
  {
    DeclareKeepsGood(b2, name);
    DeclareKeepsGood(b, name);
    if n != Fold(name) && n in known {
      var t := b.a.kids[0][b.labels[n]];
      assert f[0] in f;
      DefinitionStays(b.a, f, t, known[n], Nop, 0, f + [|b.a.kind|]);
    }
  }

  lemma SectionsAreAlike(b2: Builder, b: Builder, f: seq<nat>, known: map<string, string>, name: string)
    requires Alike(b2, b, f, known)
    ensures Alike(Declared(b2, name), Declared(b, name), f + [|b.a.kind|], known - {Fold(name)})
  {
    hide SameLabel, Wf;
    DeclareKeepsGood(b2, name);
    DeclareKeepsGood(b, name);
    assert Copied(b2.a, b.a, f, 0);
    CopyGrows(b2.a, b.a, f, Nop, 0);
    forall n ensures SameLabel(Declared(b2, name), Declared(b, name), f + [|b.a.kind|], known - {Fold(name)}, n) {
      LabelOutlives(b2, b, f, known, n, name);
    }
  }

  /** @define in one of them. */
  function Defined(b: Builder, name: string, text: string): Builder
    requires Good(b)
  {
    DeclareKeepsGood(b, name);
    Declared(b, name).(a := Append(Declared(b, name).a, Data(text), |b.a.kind|), cc := b.cc)
  }

  lemma DefinedIsStep(b: Builder, name: string, text: string)
    requires Good(b)
    ensures Step(b, Define(name, text)) == Ok(Defined(b, name, text)) && Good(Defined(b, name, text))
  {
    StepKeepsGood(b, Define(name, text));
  }

  lemma CopiesFit(a2: Arena, a: Arena, f: seq<nat>)
    requires Copies(a2, a, f)
    ensures forall i :: 0 <= i < |f| ==> f[i] < |a.kind|
  {
    forall i | 0 <= i < |f| ensures f[i] < |a.kind| {
      assert Copied(a2, a, f, i);
    }
  }

  lemma LabelOfDefinition(b2: Builder, b: Builder, f: seq<nat>, known: map<string, string>, name: string, text: string)
    requires Good(b2) && Good(b) && Copies(b2.a, b.a, f)
    ensures Good(Defined(b, name, text)) && SameLabel(b2, Defined(b, name, text), f, known[Fold(name) := text], Fold(name))
  {
    hide Wf;
    DefinedIsStep(b, name, text);
    DeclareKeepsGood(b, name);
    CopiesFit(b2.a, b.a, f);
    var d := Defined(b, name, text);
    assert d.a.kids[0] == b.a.kids[0] + [|b.a.kind|];
    assert Defines(d.a, f, |b.a.kind|, text);
  }

  lemma LabelBesideDefinition(b2: Builder, b: Builder, f: seq<nat>, known: map<string, string>, n: string, name: string, text: string)
    requires Good(b2) && Good(b) && Copies(b2.a, b.a, f) && SameLabel(b2, b, f, known, n) && n != Fold(name)
    ensures Good(Defined(b, name, text)) && SameLabel(b2, Defined(b, name, text), f, known[Fold(name) := text], n)
  {
    hide Wf, Copied;
    DefinedIsStep(b, name, text);
    DeclareKeepsGood(b, name);
    CopiesFit(b2.a, b.a, f);
    var d := Defined(b, name, text);
    assert d.a.kids[0] == b.a.kids[0] + [|b.a.kind|];
    if n in known {
      var t := b.a.kids[0][b.labels[n]];
      RootIsCopied(b2.a, b.a, f);
      DefinitionStays(b.a, f, t, known[n], Nop, 0, f);
      DefinitionStays(Declared(b, name).a, f, t, known[n], Data(text), |b.a.kind|, f);
    }
  }

  lemma RootIsCopied(a2: Arena, a: Arena, f: seq<nat>)
    requires Copies(a2, a, f)
    ensures 0 in f
  {
    assert f[0] in f;
  }

  lemma DefinitionsAreAside(b2: Builder, b: Builder, f: seq<nat>, known: map<string, string>, name: string, text: string)
    requires Alike(b2, b, f, known)
    ensures Good(b) && Alike(b2, Defined(b, name, text), f, known[Fold(name) := text])
  {
    hide SameLabel, Wf;
    DefinedIsStep(b, name, text);
    DeclareKeepsGood(b, name);
    CopiesFit(b2.a, b.a, f);
    CopyStays(b2.a, b.a, f, Nop, 0);
    CopyStays(b2.a, Declared(b, name).a, f, Data(text), |b.a.kind|);
    var d, known' := Defined(b, name, text), known[Fold(name) := text];
    assert d.a.kids[0] == b.a.kids[0] + [|b.a.kind|];
    forall n ensures SameLabel(b2, d, f, known', n) {
      if n == Fold(name) {
        LabelOfDefinition(b2, b, f, known, name, text);
      } else {
        LabelBesideDefinition(b2, b, f, known, n, name, text);
      }
    }
  }

  /** Any line but a definition does the same in both. */
  lemma StepsAreAlike(b2: Builder, b: Builder, f: seq<nat>, known: map<string, string>, c: Command) returns (f': seq<nat>)
    requires Alike(b2, b, f, known) && !c.Define? && Good(b2) && Good(b) && Step(b2, c).Ok?
    ensures Step(b, c).Ok? && Alike(Step(b2, c).value, Step(b, c).value, f', KnownAfter(c, known))
  {
    hide Alike;
    f' := f + [|b.a.kind|];
    match c
    case TextLine(line) => AlikeGrows(b2, b, f, known, Data(line));
    case Assign(args) => AlikeGrows(b2, b, f, known, Set(args));
    case OpenLoop(rows) => AlikeGrows(b2, b, f, known, Loop(rows));
    case OpenSwitch(key) => AlikeGrows(b2, b, f, known, Switch(key));
    case OpenIf(test) =>
      AlikeGrows(b2, b, f, known, Cond(test));
      AlikeGrows(Enter(b2, Cond(test)), Enter(b, Cond(test)), f', known, Nop);
      f' := f' + [|Enter(b, Cond(test)).a.kind|];
    case Section(name) => SectionsAreAlike(b2, b, f, known, name);
    case Unknown => f' := f;
    case _ => f' := MovesAreAlike(b2, b, f, known, c);
  }

  lemma {:induction false} RunsAreAlike(b2: Builder, b: Builder, f: seq<nat>, known: map<string, string>, cs: seq<Command>)
    returns (f': seq<nat>)
    requires Alike(b2, b, f, known) && Good(b2) && Good(b) && BuildCommands(b2, Blocks(cs)).Ok?
    ensures BuildCommands(b, cs).Ok?
    ensures Alike(BuildCommands(b2, Blocks(cs)).value, BuildCommands(b, cs).value, f', Definitions(cs, known))
    decreases |cs|
  {
    hide Alike, Wf, Step;
    if cs == [] { return f; }
    var c := cs[0];
    if c.Define? {
      assert Blocks(cs) == Blocks(cs[1..]);
      DefinedIsStep(b, c.name, c.text);
      DefinitionsAreAside(b2, b, f, known, c.name, c.text);
      f' := RunsAreAlike(b2, Defined(b, c.name, c.text), f, KnownAfter(c, known), cs[1..]);
    } else {
      assert Blocks(cs)[0] == c && Blocks(cs)[1..] == Blocks(cs[1..]);
      StepKeepsGood(b2, c);
      var g := StepsAreAlike(b2, b, f, known, c);
      StepKeepsGood(b, c);
      f' := RunsAreAlike(Step(b2, c).value, Step(b, c).value, g, KnownAfter(c, known), cs[1..]);
    }
  }

  lemma StartIsCopied()
    ensures Copies(START.a, START.a, [0, 1])
  {
    var f: seq<nat>, kids := [0, 1], START.a.kids;
    assert kids[0] == [1] && kids[1] == [];
    assert Mapped(f, kids[1]) == [];
    assert Copied(START.a, START.a, f, 0) && Copied(START.a, START.a, f, 1);
  }

  lemma StartIsAlike()
    ensures Good(START) && Alike(START, START, [0, 1], map[])
  {
    hide Good, Copies, Wf;
    StartIsGood();
    StartIsCopied();
    assert START.a.kids[0] == [1];
  }

  /** What a label leads to in both. */
  lemma TargetsAreAlike(b2: Builder, b: Builder, f: seq<nat>, known: map<string, string>, l: string)
    requires Alike(b2, b, f, known) && Good(b2) && Good(b)
    ensures TokenAt(b.a, Target(b, l)) == if Fold(l) in known then Token(Nop, [Token(Data(known[Fold(l)]), [])])
      else TokenAt(b2.a, Target(b2, l))
  {
    var n := Fold(l);
    assert SameLabel(b2, b, f, known, n);
    if n in known {
      DefinitionMeans(b.a, f, Target(b, l), known[n]);
    } else {
      var t := Target(b2, l);
      assert Children(b2.a, 0, b2.a.kids[0]) && Copied(b2.a, b.a, f, t);
      CopiesMeanTheSame(b2.a, b.a, f, t);
    }
  }
}

/** Any source text that says what a template says. */
module ScriptSources {
  import opened Wrappers
  import opened Text
  import opened ScriptLines
  import opened ScriptBuilder
  import opened ScriptMeaning
  import opened ScriptRoundTrip
  import opened ScriptCommands
  import opened ScriptDefinitions

  /** Lines with the commands of a script build its tokens, however they are spelt. */
  lemma {:induction false} AnySpellingBuilds(b: Builder, lines: seq<string>, items: seq<Item>)
    requires Good(b) && WellFormed(items) && Commands(lines) == Commands(Lines(items))
    ensures BuildLines(b, lines).Ok? && Built(b, BuildLines(b, lines).value, Tokens(items))
  {
    LinesAreCommands(b, lines);
    LinesAreCommands(b, Lines(items));
    LinesBuild(b, items);
  }

  /** The same for a section and its lines. */
  lemma {:induction false} AnySectionBuilds(b: Builder, lines: seq<string>, name: string, body: seq<Item>)
    requires Good(b) && WellFormed(body) && Commands(lines) == [Section(name)] + Commands(Lines(body))
    ensures BuildLines(b, lines).Ok?
    ensures var b' := BuildLines(b, lines).value;
      && Adds(b, b', Token(Nop, Tokens(body)))
      && b'.crsr == b.crsr + 1 && b'.labels == b.labels[Fold(name) := b.crsr + 1]
  {
    hide Adds, Good, Classify;
    var printed := ["@section " + name] + Lines(body);
    SectionReadsBack(name);
    assert printed[1..] == Lines(body);
    LinesAreCommands(b, lines);
    LinesAreCommands(b, printed);
    SectionBuilds(b, name, body);
  }

  /** A definition adds its text under a child of its own and leaves the cursor, wherever
      that is, and the other children of the parser. */
  lemma DefinitionBuilds(b: Builder, name: string, text: string)
    requires Good(b)
    ensures Step(b, Define(name, text)) == Ok(Defined(b, name, text))
    ensures Adds(b, Defined(b, name, text), Token(Nop, [Token(Data(text), [])]))
    ensures var b' := Defined(b, name, text);
      b'.cc == b.cc && b'.crsr == b.crsr + 1 && b'.labels == b.labels[Fold(name) := b.crsr + 1]
  {
    DefinedIsStep(b, name, text);
    DeclareKeepsGood(b, name);
    var d := Declared(b, name);
    LeafBuilt(d, Data(text));
    SectionAdds(b, name, d.(a := Append(d.a, Data(text), d.cc)), [Token(Data(text), [])]);
  }

  /** A source has the commands of a template when what is left of it without unknown
      commands and definitions are those of the template's lines. */
  ghost predicate Says(src: string, t: Template) {
    Blocks(Commands(Split(src, '\n'))) == Commands(TemplateLines(t))
  }

  /** The definitions in force at the end of the source. */
  function Texts(src: string): map<string, string> {
    Definitions(Commands(Split(src, '\n')), map[])
  }

  /** What running a label of the source means. */
  function Meaning<Env, Val>(ops: Ops<Env, Val>, t: Template, src: string, l: string, e: Env, buf: string): Outcome<Env> {
    if Fold(l) in Texts(src) then Emit(ops, Texts(src)[Fold(l)], true, e, buf)
    else Eval(ops, Named(t.sections, l, t.preamble), e, buf)
  }

  /** Building a source and running a label is evaluating what the label stands for, for
      every spelling of the commands, every variable space and every expansion. */
  lemma BuildThenRunIsEval<Env, Val>(ops: Ops<Env, Val>, t: Template, src: string, l: string, e: Env, buf: string)
    requires WellFormedTemplate(t) && Says(src, t)
    ensures Build(src).Ok?
    ensures Run(ops, Build(src).value, l, e, buf) == Meaning(ops, t, src, l, e, buf)
  {
    hide Alike, Wf, Good, Adds, Emit, WellFormedTemplate;
    StartIsAlike();
    TemplateBuilds(t, l);
    var lines := Split(src, '\n');
    LinesAreCommands(START, TemplateLines(t));
    LinesAreCommands(START, lines);
    var f := RunsAreAlike(START, START, [0, 1], map[], Commands(lines));
    var b2, b := BuildLines(START, TemplateLines(t)).value, Build(src).value;
    TargetsAreAlike(b2, b, f, Texts(src), l);
    TokensMean(ops, Named(t.sections, l, t.preamble), e, buf);
    if Fold(l) in Texts(src) { TextMeans(ops, Texts(src)[Fold(l)], e, buf); }
  }

  lemma {:induction false} TextMeans<Env, Val>(ops: Ops<Env, Val>, text: string, e: Env, buf: string)
    ensures RunToken(ops, Token(Nop, [Token(Data(text), [])]), false, e, buf) == Emit(ops, text, true, e, buf)
  {
    var t := Token(Data(text), []);
    assert [t][1..] == [];
    assert RunTokens(ops, [t], e, buf) == Emit(ops, text, true, e, buf);
  }

  ghost predicate DefineNothing(lines: seq<string>) {
    forall line <- lines :: !Classify(line).Define?
  }

  lemma {:induction false} ItemsDefineNothing(items: seq<Item>)
    requires WellFormed(items)
    ensures DefineNothing(Lines(items))
    decreases items, 0
  {
    hide Classify;
    if items != [] {
      ItemDefinesNothing(items[0]);
      ItemsDefineNothing(items[1..]);
    }
  }

  lemma {:induction false} ItemDefinesNothing(i: Item)
    requires WellFormedItem(i)
    ensures DefineNothing(ItemLines(i))
    decreases i, 1
  {
    hide Classify;
    ElseReadsBack();
    match i
    case Text(_) =>
    case SetItem(args) => SetReadsBack(args);
    case LoopItem(rows, body) =>
      LoopReadsBack(rows);
      ItemsDefineNothing(body);
    case IfItem(test, yes) =>
      IfReadsBack(test);
      ItemsDefineNothing(yes);
    case IfElseItem(test, yes, no) =>
      IfReadsBack(test);
      ItemsDefineNothing(yes);
      ItemsDefineNothing(no);
  }

  lemma {:induction false} SectionsDefineNothing(secs: seq<(string, seq<Item>)>)
    requires forall s <- secs :: WellFormed(s.1)
    ensures DefineNothing(SectionLines(secs))
  {
    hide Classify;
    if secs != [] {
      SectionReadsBack(secs[0].0);
      ItemsDefineNothing(secs[0].1);
      SectionsDefineNothing(secs[1..]);
    }
  }

  lemma {:induction false} NothingDefined(lines: seq<string>)
    requires DefineNothing(lines)
    ensures Blocks(Commands(lines)) == Commands(lines) && Definitions(Commands(lines), map[]) == map[]
  {
    hide Classify;
    if lines != [] {
      NothingDefined(lines[1..]);
      var c, cs := Classify(lines[0]), Commands(lines[1..]);
      assert !c.Define?;
      if c == Unknown {
        assert Commands(lines) == cs;
      } else {
        assert Commands(lines) == [c] + cs && ([c] + cs)[1..] == cs;
        assert KnownAfter(c, map[]) == map[];
      }
    }
  }

  /** A template's own lines say what the template says, and define nothing. */
  lemma {:induction false} CanonicalSays(src: string, t: Template)
    requires WellFormedTemplate(t) && Split(src, '\n') == TemplateLines(t)
    ensures Says(src, t) && Texts(src) == map[]
  {
    hide Classify;
    ItemsDefineNothing(t.preamble);
    SectionsDefineNothing(t.sections);
    NothingDefined(TemplateLines(t));
  }
}
