/**
 Template scripts of src/libgrace/cmdtoken.cpp as values: how a line is read, the token
 tree that one pass over the lines builds with a moving cursor, and what running a token
 does to the environment and the output.
 */
module ScriptLines {
  import opened Text

  /** One line as scriptparser::build reads it. */
  datatype Command =
    | TextLine(line: string)
    | Section(name: string)
    | Define(name: string, text: string)
    | OpenSwitch(key: string)
    | CloseSwitch
    | OpenCase(name: string)
    | OpenLoop(rows: string)
    | CloseLoop
    | OpenIf(test: string)
    | Else
    | CloseIf
    | Assign(args: string)
    | Unknown

  function SkipBlanks(s: string): string {
    if s != "" && (s[0] == ' ' || s[0] == '\t') then SkipBlanks(s[1..]) else s
  }

  /** The word and the arguments of a command line. */
  function SplitCommand(s: string): (string, string) {
    var (cmd, args) := CutAt(s, ' ');
    if cmd == "" then (args, "") else (cmd, args)
  }

  function Classify(line: string): Command {
    var stripped := SkipBlanks(line);
    if stripped == "" || stripped[0] != '@' then TextLine(line)
    else
      var (cmd, args) := SplitCommand(stripped);
      if cmd == "@section" then Section(args)
      else if cmd == "@define" then
        var (name, text) := CutAt(args, ' ');
        Define(name, text)
      else if cmd == "@switch" then OpenSwitch(args)
      else if cmd == "@endswitch" then CloseSwitch
      else if cmd == "@case" then OpenCase(args)
      else if cmd == "@loop" then OpenLoop(args)
      else if cmd == "@endloop" then CloseLoop
      else if cmd == "@if" then OpenIf(args)
      else if cmd == "@else" then Else
      else if cmd == "@endif" then CloseIf
      else if cmd == "@set" then Assign(args)
      else Unknown
  }

  /** A command printed as word, blank, arguments is read back with the same arguments. */
  lemma {:induction false} CommandIsReadBack(word: string, args: string)
    requires word != "" && word[0] == '@' && ' ' !in word
    ensures SplitCommand(word + " " + args) == (word, args)
    ensures SplitCommand(word) == (word, "")
    ensures SkipBlanks(word + " " + args) == word + " " + args && SkipBlanks(word) == word
  {
    FirstIndex(word, ' ', args);
    var s := word + " " + args;
    assert s == word + [' '] + args;
    assert s[..|word|] == word && s[|word| + 1..] == args;
  }
}

/** The builder: tokens numbered in the order they are made, number 0 being the parser
    itself, and a cursor that names the token under which the next one is made. */
module ScriptBuilder {
  import opened Wrappers
  import opened ScriptLines
  import opened Text

  datatype Kind =
    | Root
    | Nop
    | Data(line: string)
    | Loop(rows: string)
    | Cond(test: string)
    | Set(args: string)
    | Switch(key: string)
    | Case(value: string)

  datatype Arena = Arena(kind: seq<Kind>, parent: seq<nat>, kids: seq<seq<nat>>)

  datatype Builder = Builder(a: Arena, cc: nat, crsr: nat, labels: map<string, nat>)

  ghost predicate Wf(a: Arena) {
    && 0 < |a.kind| == |a.parent| == |a.kids|
    && a.kind[0] == Root
    && (forall i :: 0 < i < |a.kind| ==> a.parent[i] < i && i in a.kids[a.parent[i]])
    && (forall p :: 0 <= p < |a.kids| ==> Increasing(a.kids[p]) && Children(a, p, a.kids[p]))
  }

  /** ks are numbers of tokens made after p and below it. */
  ghost predicate Children(a: Arena, p: nat, ks: seq<nat>)
    requires |a.kind| == |a.parent|
  {
    forall i :: 0 <= i < |ks| ==> p < ks[i] < |a.kind| && a.parent[ks[i]] == p
  }

  ghost predicate Increasing(s: seq<nat>) {
    forall i, j :: 0 <= i < j < |s| ==> s[i] < s[j]
  }

  /** The cmdtoken constructor: a new token, last among the children of p. */
  function Append(a: Arena, k: Kind, p: nat): Arena
    requires p < |a.kids|
  {
    Arena(a.kind + [k], a.parent + [p], a.kids[p := a.kids[p] + [|a.kind|]] + [[]])
  }

  const START := Builder(Arena([Root, Nop], [0, 0], [[1], []]), 1, 0, map[])

  /** Make a token under the cursor and move the cursor to it. */
  function Enter(b: Builder, k: Kind): Builder
    requires b.cc < |b.a.kids|
  {
    b.(a := Append(b.a, k, b.cc), cc := |b.a.kind|)
  }

  /** A new child of the parser, known by a label; the cursor moves to it. */
  function Declared(b: Builder, name: string): Builder
    requires |b.a.kids| > 0
  {
    Builder(Append(b.a, Nop, 0), |b.a.kind|, b.crsr + 1, b.labels[Fold(name) := b.crsr + 1])
  }

  /** The cursor is at a child of the parser, or nowhere below it. */
  predicate AtTop(b: Builder, i: nat)
    requires i < |b.a.parent|
  {
    i == 0 || b.a.parent[i] == 0
  }

  /** One line. Err is scriptUnbalancedConditionException. */
  function Step(b: Builder, c: Command): (r: Result<Builder, Builder>)
    requires Wf(b.a) && b.cc < |b.a.kind|
  {
    var a, cc, kind, parent := b.a, b.cc, b.a.kind, b.a.parent;
    match c
    case TextLine(line) => Ok(b.(a := Append(a, Data(line), cc)))
    case Assign(args) => Ok(b.(a := Append(a, Set(args), cc)))
    case Unknown => Ok(b)
    case Section(name) =>
      Ok(Declared(b, name))
    case Define(name, text) =>
      var d := Declared(b, name);
      Ok(d.(a := Append(d.a, Data(text), d.cc), cc := cc))
    case OpenLoop(rows) => Ok(Enter(b, Loop(rows)))
    case CloseLoop => if AtTop(b, cc) then Ok(b) else Ok(b.(cc := parent[cc]))
    case OpenIf(test) => Ok(Enter(Enter(b, Cond(test)), Nop))
    case Else =>
      if AtTop(b, cc) || !kind[parent[cc]].Cond? then Err(b)
      else Ok(Enter(b.(cc := parent[cc]), Nop))
    case CloseIf =>
      if AtTop(b, cc) || !kind[parent[cc]].Cond? then Err(b) else Ok(b.(cc := parent[parent[cc]]))
    case OpenSwitch(key) => Ok(Enter(b, Switch(key)))
    case CloseSwitch =>
      if AtTop(b, cc) then Err(b)
      else
        var to := if kind[cc].Case? then parent[cc] else cc;
        if kind[to].Switch? then Ok(b.(cc := to)) else Err(b)
    case OpenCase(value) =>
      if kind[cc].Case? && AtTop(b, cc) then Err(b)
      else
        var to := if kind[cc].Case? then parent[cc] else cc;
        if kind[to].Switch? then Ok(Enter(b.(cc := to), Case(value))) else Err(b)
  }

  /** Cursor strictly below the parser, and the children of the parser are the first
      block and one token a declaration. */
  ghost predicate Good(b: Builder) {
    && Wf(b.a)
    && 0 < b.cc < |b.a.kind|
    && |b.a.kids[0]| == b.crsr + 1
    && (forall i :: 0 <= i <= b.crsr ==> b.a.kids[0][i] < |b.a.kind| && b.a.kind[b.a.kids[0][i]] == Nop)
    && (forall l <- b.labels :: b.labels[l] <= b.crsr)
  }

  lemma AppendKeepsWf(a: Arena, k: Kind, p: nat)
    requires Wf(a) && p < |a.kind|
    ensures Wf(Append(a, k, p))
  {
    var a' := Append(a, k, p);
    var n := |a.kind|;
    forall i | 0 < i < |a'.kind| ensures a'.parent[i] < i && i in a'.kids[a'.parent[i]] {
      if i < n {
        assert i in a.kids[a.parent[i]];
        assert a.kids[a.parent[i]] <= a'.kids[a.parent[i]];
      } else {
        assert a'.kids[p][|a.kids[p]|] == n;
      }
    }
    forall q | 0 <= q < |a'.kids| ensures Increasing(a'.kids[q]) && Children(a', q, a'.kids[q]) {
      if q < n { assert Increasing(a.kids[q]) && Children(a, q, a.kids[q]); }
    }
  }

  /** Making a token below the cursor touches neither the parser's children nor the labels. */
  lemma GrowKeepsGood(b: Builder, k: Kind)
    requires Good(b)
    ensures Good(b.(a := Append(b.a, k, b.cc))) && Good(Enter(b, k))
    ensures Append(b.a, k, b.cc).kids[0] == b.a.kids[0]
  {
    AppendKeepsWf(b.a, k, b.cc);
  }

  /** A declaration gives the parser one more child, its last. */
  lemma DeclareKeepsGood(b: Builder, name: string)
    requires Good(b)
    ensures Good(Declared(b, name))
    ensures Append(b.a, Nop, 0).kids[0] == b.a.kids[0] + [|b.a.kind|]
  {
    AppendKeepsWf(b.a, Nop, 0);
  }

  /** What every line keeps. */
  ghost predicate Follows(b: Builder, c: Command, b': Builder)
    requires |b.a.kids| > 0
  {
    && Good(b')
    && if c.Section? || c.Define? then
         && b'.a.kids[0] == b.a.kids[0] + [|b.a.kind|]
         && b'.crsr == b.crsr + 1
         && b'.labels == b.labels[Fold(c.name) := b.crsr + 1]
       else
         b'.a.kids[0] == b.a.kids[0] && b'.crsr == b.crsr && b'.labels == b.labels
  }

  ghost predicate Kept(b: Builder, c: Command)
    requires Good(b)
  {
    match Step(b, c)
    case Ok(b') => Follows(b, c, b')
    case Err(e) => e == b && !c.Section? && !c.Define?
  }

  lemma DeclarationsKeepGood(b: Builder, c: Command)
    requires Good(b) && (c.Section? || c.Define?)
    ensures Kept(b, c)
  {
    DeclareKeepsGood(b, c.name);
    if c.Define? {
      GrowKeepsGood(Declared(b, c.name), Data(c.text));
    }
  }

  lemma StartIsGood()
    ensures Good(START)
  {
  }

  lemma GoodFits(b: Builder)
    requires Good(b)
    ensures Wf(b.a) && 0 < b.cc < |b.a.kind| == |b.a.parent| == |b.a.kids|
  {
  }

  lemma OpeningsKeepGood(b: Builder, c: Command)
    requires Good(b) && (c.TextLine? || c.Assign? || c.OpenLoop? || c.OpenIf? || c.OpenSwitch?)
    ensures Kept(b, c)
  {
    hide Wf, Good, Append;
    GoodFits(b);
    var k := match c
      case TextLine(line) => Data(line)
      case Assign(args) => Set(args)
      case OpenLoop(rows) => Loop(rows)
      case OpenIf(test) => Cond(test)
      case OpenSwitch(key) => Switch(key);
    GrowKeepsGood(b, k);
    if c.OpenIf? {
      GoodFits(Enter(b, k));
      GrowKeepsGood(Enter(b, k), Nop);
    }
  }

  /** Moving up from below a child of the parser. */
  lemma UpKeepsGood(b: Builder)
    requires Good(b) && !AtTop(b, b.cc)
    ensures Good(b.(cc := b.a.parent[b.cc]))
    ensures b.a.kind[b.a.parent[b.cc]].Cond? ==> Good(b.(cc := b.a.parent[b.a.parent[b.cc]]))
  {
    var up := b.a.parent[b.cc];
    assert up in b.a.kids[b.a.parent[up]];
    assert forall k <- b.a.kids[0] :: b.a.kind[k] == Nop;
  }

  lemma MovesKeepGood(b: Builder, c: Command)
    requires Good(b) && (c.CloseLoop? || c.Else? || c.CloseIf? || c.CloseSwitch? || c.OpenCase? || c.Unknown?)
    ensures Kept(b, c)
  {
    hide Wf, Good, Append;
    GoodFits(b);
    if !AtTop(b, b.cc) {
      UpKeepsGood(b);
      var up := b.(cc := b.a.parent[b.cc]);
      GoodFits(up);
      if c.Else? { GrowKeepsGood(up, Nop); }
      if c.OpenCase? { GrowKeepsGood(up, Case(c.name)); }
    }
    if c.OpenCase? { GrowKeepsGood(b, Case(c.name)); }
  }

  /** For every line the cursor stays a proper descendant of the parser, and only
      declarations give the parser a new child. */
  lemma StepKeepsGood(b: Builder, c: Command)
    requires Good(b)
    ensures Kept(b, c)
  {
    hide Kept;
    if c.Section? || c.Define? {
      DeclarationsKeepGood(b, c);
    } else if c.TextLine? || c.Assign? || c.OpenLoop? || c.OpenIf? || c.OpenSwitch? {
      OpeningsKeepGood(b, c);
    } else {
      MovesKeepGood(b, c);
    }
  }

  /** One pass over the lines, stopping at the first that throws. */
  function BuildLines(b: Builder, lines: seq<string>): (r: Result<Builder, Builder>)
    requires Good(b)
    ensures Good(if r.Ok? then r.value else r.error)
    decreases |lines|
  {
    if lines == [] then Ok(b)
    else
      StepKeepsGood(b, Classify(lines[0]));
      match Step(b, Classify(lines[0]))
      case Err(e) => Err(e)
      case Ok(next) => BuildLines(next, lines[1..])
  }

  /** scriptparser::build on a fresh parser. */
  function Build(src: string): Result<Builder, Builder> {
    BuildLines(START, Split(src, '\n'))
  }

  predicate Declares(line: string, l: string) {
    var c := Classify(line);
    (c.Section? || c.Define?) && Fold(c.name) == Fold(l)
  }

  lemma {:induction false} BuildInTwo(b: Builder, x: seq<string>, y: seq<string>)
    requires Good(b)
    ensures BuildLines(b, x + y) ==
      match BuildLines(b, x) case Err(e) => Err(e) case Ok(b') => BuildLines(b', y)
    decreases |x|
  {
    hide Step, Classify, Wf;
    if x == [] {
      assert x + y == y;
    } else {
      assert (x + y)[1..] == x[1..] + y;
      StepKeepsGood(b, Classify(x[0]));
      match Step(b, Classify(x[0]))
      case Err(_) =>
      case Ok(next) => BuildInTwo(next, x[1..], y);
    }
  }

  /** Lines that do not declare l leave its entry alone, and the children the parser has
      keep their places. */
  lemma {:induction false} UndeclaredStays(b: Builder, lines: seq<string>, l: string)
    requires Good(b) && BuildLines(b, lines).Ok?
    requires forall line <- lines :: !Declares(line, l)
    ensures var b' := BuildLines(b, lines).value;
      && b.a.kids[0] <= b'.a.kids[0]
      && (Fold(l) in b'.labels <==> Fold(l) in b.labels)
      && (Fold(l) in b.labels ==> b'.labels[Fold(l)] == b.labels[Fold(l)])
    decreases |lines|
  {
    hide Step, Classify, Wf;
    if lines != [] {
      StepKeepsGood(b, Classify(lines[0]));
      assert !Declares(lines[0], l);
      UndeclaredStays(Step(b, Classify(lines[0])).value, lines[1..], l);
    }
  }

  /** The child of the parser that run (label) walks to. Looking up a label that was never
      declared finds 0. */
  function Target(b: Builder, l: string): (k: nat)
    requires Good(b)
  {
    b.a.kids[0][if Fold(l) in b.labels then b.labels[Fold(l)] else 0]
  }

  /** The builder that a build leaves in the parser, whether it throws or not. */
  function Left(r: Result<Builder, Builder>): Builder {
    if r.Ok? then r.value else r.error
  }

  /** A build reads k lines, and leaves what these make; the next one, if any, throws. */
  lemma {:induction false} ReadsUpTo(b: Builder, lines: seq<string>) returns (k: nat)
    requires Good(b)
    ensures k <= |lines| && BuildLines(b, lines[..k]) == Ok(Left(BuildLines(b, lines)))
    ensures k < |lines| ==> Step(Left(BuildLines(b, lines)), Classify(lines[k])).Err?
    decreases |lines|
  {
    hide Step, Classify, Wf;
    k := 0;
    if lines == [] { return; }
    StepKeepsGood(b, Classify(lines[0]));
    match Step(b, Classify(lines[0]))
    case Err(_) =>
    case Ok(next) =>
      k := ReadsUpTo(next, lines[1..]);
      k := k + 1;
      assert lines[..k][0] == lines[0] && lines[..k][1..] == lines[1..][..k - 1];
  }

  /** Line j comes before any that throws. */
  ghost predicate Reached(b: Builder, lines: seq<string>, j: nat)
    requires Good(b) && j < |lines|
  {
    BuildLines(b, lines[..j]).Ok?
  }

  lemma {:induction false} ThrowsAtOnce(b: Builder, lines: seq<string>)
    requires Good(b) && lines != [] && Step(b, Classify(lines[0])).Err?
    ensures BuildLines(b, lines).Err?
  {
    hide Classify, Wf;
  }

  lemma {:induction false} BeforeTheThrow(b: Builder, lines: seq<string>, k: nat, j: nat)
    requires Good(b) && j < |lines| && k <= |lines|
    requires BuildLines(b, lines[..k]).Ok? && (k < |lines| ==> Step(BuildLines(b, lines[..k]).value, Classify(lines[k])).Err?)
    ensures Reached(b, lines, j) <==> j <= k
  {
    hide Step, Classify, Good;
    if j <= k {
      assert lines[..k] == lines[..j] + lines[j..k];
      BuildInTwo(b, lines[..j], lines[j..k]);
    } else {
      assert lines[..j] == lines[..k] + lines[k..j];
      BuildInTwo(b, lines[..k], lines[k..j]);
      ThrowsAtOnce(BuildLines(b, lines[..k]).value, lines[k..j]);
    }
  }

  /** For every source text, built to its end or up to a line that throws: the label leads
      to the token that line i made, its last declaration among the lines that are read. */
  lemma {:induction false} LabelFindsLastDeclaration(b: Builder, lines: seq<string>, i: nat, l: string)
    requires Good(b) && i < |lines| && Declares(lines[i], l) && Reached(b, lines, i)
    requires forall j :: i < j < |lines| && Reached(b, lines, j) ==> !Declares(lines[j], l)
    ensures Target(Left(BuildLines(b, lines)), l) == |BuildLines(b, lines[..i]).value.a.kind|
  {
    hide Step, Classify, Wf, Declares, Target;
    var k := ReadsUpTo(b, lines);
    BeforeTheThrow(b, lines, k, i);
    var before := BuildLines(b, lines[..i]).value;
    StepKeepsGood(before, Classify(lines[i]));
    assert i != k by { DeclarationsDoNotThrow(before, lines[i], l); }
    assert lines[..k][..i] == lines[..i];
    forall j | i < j < k ensures !Declares(lines[..k][j], l) {
      BeforeTheThrow(b, lines, k, j);
    }
    LastDeclaration(b, lines[..k], i, l);
  }

  lemma DeclarationsDoNotThrow(b: Builder, line: string, l: string)
    requires Good(b) && Declares(line, l)
    ensures Step(b, Classify(line)).Ok?
  {
    hide Classify, Wf;
  }

  lemma {:induction false} LastDeclaration(b: Builder, lines: seq<string>, i: nat, l: string)
    requires Good(b) && BuildLines(b, lines).Ok?
    requires i < |lines| && Declares(lines[i], l)
    requires forall j :: i < j < |lines| ==> !Declares(lines[j], l)
    ensures BuildLines(b, lines[..i]).Ok?
    ensures Target(BuildLines(b, lines).value, l) == |BuildLines(b, lines[..i]).value.a.kind|
  {
    hide Step, Classify, Wf;
    BuildInTwo(b, lines[..i], lines[i..]);
    assert lines == lines[..i] + lines[i..];
    var before := BuildLines(b, lines[..i]).value;
    StepKeepsGood(before, Classify(lines[i]));
    var after := Step(before, Classify(lines[i])).value;
    assert lines[i..][1..] == lines[i + 1..];
    UndeclaredStays(after, lines[i + 1..], l);
    var done := BuildLines(b, lines).value;
    GoodFits(before);
    GoodFits(after);
    GoodFits(done);
    assert after.a.kids[0][before.crsr + 1] == |before.a.kind|;
    assert done.a.kids[0][..|after.a.kids[0]|] == after.a.kids[0];
  }

  /** A token with what hangs below it. */
  datatype Token = Token(kind: Kind, kids: seq<Token>)

  function TokenAt(a: Arena, i: nat): (t: Token)
    requires Wf(a) && i < |a.kind|
    ensures t.kind == a.kind[i] && |t.kids| == |a.kids[i]|
    decreases |a.kind| - i
  {
    assert Children(a, i, a.kids[i]);
    Token(a.kind[i], seq(|a.kids[i]|, j requires 0 <= j < |a.kids[i]| => TokenAt(a, a.kids[i][j])))
  }

  /** a' is a with more tokens, of which only p gets new children. */
  ghost predicate Grows(a: Arena, a': Arena, p: nat) {
    && Wf(a) && Wf(a') && p < |a.kind|
    && a.kind <= a'.kind && a.parent <= a'.parent
    && (forall i :: 0 <= i < |a.kind| && i != p ==> a'.kids[i] == a.kids[i])
    && a.kids[p] <= a'.kids[p]
  }

  /** Tokens made after p are as they were, down to their leaves. */
  lemma {:induction false} LaterTokensStay(a: Arena, a': Arena, p: nat, i: nat)
    requires Grows(a, a', p) && p < i < |a.kind|
    ensures TokenAt(a', i) == TokenAt(a, i)
    decreases |a.kind| - i
  {
    assert Children(a, i, a.kids[i]);
    forall j | 0 <= j < |a.kids[i]| ensures TokenAt(a', a'.kids[i][j]) == TokenAt(a, a.kids[i][j]) {
      LaterTokensStay(a, a', p, a.kids[i][j]);
    }
  }

  /** The tokens that p got on the way from a to a'. */
  function NewKids(a: Arena, a': Arena, p: nat): seq<Token>
    requires Grows(a, a', p)
  {
    TokenAt(a', p).kids[|a.kids[p]|..]
  }

  lemma GrowsInSteps(a: Arena, a': Arena, a'': Arena, p: nat)
    requires Grows(a, a', p) && Grows(a', a'', p)
    ensures Grows(a, a'', p) && NewKids(a, a'', p) == NewKids(a, a', p) + NewKids(a', a'', p)
  {
    assert Children(a', p, a'.kids[p]);
    forall j | 0 <= j < |a'.kids[p]| ensures TokenAt(a'', a''.kids[p][j]) == TokenAt(a', a'.kids[p][j]) {
      LaterTokensStay(a', a'', p, a'.kids[p][j]);
    }
  }

  /** Below p comes a new token n, and below n its own children: seen from p, one child. */
  lemma GrowsBelow(a: Arena, k: Kind, p: nat, a': Arena)
    requires Wf(a) && p < |a.kind| && Wf(Append(a, k, p)) && Grows(Append(a, k, p), a', |a.kind|)
    ensures Grows(a, a', p)
    ensures NewKids(a, a', p) == [Token(k, NewKids(Append(a, k, p), a', |a.kind|))]
  {
    var n, mid := |a.kind|, Append(a, k, p);
    assert a'.kids[p] == a.kids[p] + [n] && mid.kids[n] == [];
    assert TokenAt(a', n).kids[0..] == TokenAt(a', n).kids;
    assert NewKids(a, a', p)[0] == TokenAt(a', n);
  }
}

/** Running a token tree, and evaluating a script directly. */
module ScriptMeaning {
  import opened Wrappers
  import opened ScriptLines
  import opened Text
  import opened Numbers
  import opened ScriptBuilder

  /** A row of a loop variable: its label, if it has one, and what it holds. */
  datatype Row<Val> = Row(name: Option<string>, value: Val, vars: seq<Var<Val>>)

  datatype Var<Val> = Var(id: string, leaf: bool, value: Val)

  /** The operations on the variable space, and on texts, that cmdtoken.cpp calls. Looking a
      name up may create it, so each of them returns the space it leaves behind. */
  datatype Ops<!Env, !Val> = Ops(
    expand: (Env, string) -> (Env, string),           // cmdtoken_parseval
    rows: (Env, string) -> (Env, seq<Row<Val>>),      // v[name] and its children
    put: (Env, string, Val) -> Env,                   // v[name] = x
    text: string -> Val,                              // a text as a value
    number: nat -> Val,                               // a count as a value
    words: string -> seq<string>,                     // splitquoted by blanks
    glob: (string, string) -> bool,                   // globcmp
    order: (string, string) -> int,                   // strcasecmp
    assign: (Env, string) -> Env,                     // @set
    lookup: (Env, string) -> (Env, string))           // the key of @switch

  /** Text may contain a <<section>> call, where the model stops. */
  datatype Outcome<Env> = Done(env: Env, buf: string) | Calls

  /** cmdtoken_parsedata: every second part is an expression, an empty one means '$'. */
  function Parts<Env, Val>(ops: Ops, parts: seq<string>, odd: bool, e: Env, acc: string): (Env, string) {
    if parts == [] then (e, acc)
    else if !odd then Parts(ops, parts[1..], true, e, acc + parts[0])
    else if parts[0] == "" then Parts(ops, parts[1..], false, e, acc + "$")
    else
      var (e', s) := ops.expand(e, parts[0]);
      Parts(ops, parts[1..], false, e', acc + s)
  }

  /** cmdtoken_parsestring */
  function Filled<Env, Val>(ops: Ops<Env, Val>, s: string, e: Env): (Env, string) {
    Parts<Env, Val>(ops, Split(s, '$'), false, e, "")
  }

  /** The comparisons of @if; any other operator is false. */
  function Compared<Env, Val>(ops: Ops<Env, Val>, left: string, opcode: string, right: string): bool {
    if opcode == "==" then left == right
    else if opcode == "!=" then left != right
    else if opcode == "~=" then ops.glob(left, right)
    else if opcode == "<" then ops.order(left, right) < 0
    else opcode == ">" && ops.order(left, right) > 0
  }

  function Word(words: seq<string>, i: nat): string {
    if i < |words| then words[i] else ""
  }

  /** The condition of @if: one word is true when it is not empty, else the first and the third
      are compared as the second says. */
  function Tested<Env, Val>(ops: Ops<Env, Val>, test: string, e: Env): (Env, bool) {
    var words := ops.words(test);
    var (e', left) := Filled(ops, Word(words, 0), e);
    if |words| == 1 then (e', left != "")
    else
      var (e'', right) := Filled(ops, Word(words, 2), e');
      (e'', Compared(ops, left, Word(words, 1), right))
  }

  /** The rows of a loop; their number is put in the space. */
  function Found<Env, Val>(ops: Ops<Env, Val>, name: string, e: Env): (Env, seq<Row<Val>>) {
    var (e', n) := Filled(ops, name, e);
    var (e'', rows) := ops.rows(e', n);
    (ops.put(e'', "_loopcount", ops.number(|rows|)), rows)
  }

  /** What a row puts in the space: its label, itself when nothing is in it, and what is in it
      by name and, where that is a leaf, by place. */
  function Bound<Env, Val>(ops: Ops<Env, Val>, row: Row<Val>, e: Env): Env {
    var e' := if row.name.Some? then ops.put(e, "@", ops.text(row.name.value)) else e;
    BoundFrom(ops, row.vars, 0, if row.vars == [] then ops.put(e', "0", row.value) else e')
  }

  function BoundFrom<Env, Val>(ops: Ops<Env, Val>, vars: seq<Var<Val>>, j: nat, e: Env): Env
    requires j <= |vars|
    decreases |vars| - j
  {
    if j == |vars| then e
    else
      var e' := if vars[j].leaf then ops.put(e, Dec(j), vars[j].value) else e;
      BoundFrom(ops, vars, j + 1, ops.put(e', vars[j].id, vars[j].value))
  }

  predicate HasCall(s: string) {
    |s| >= 2 && (s[..2] == "<<" || HasCall(s[1..]))
  }

  /** A text token: a newline follows unless the token is the last of its block. */
  function Emit<Env, Val>(ops: Ops, line: string, last: bool, e: Env, buf: string): Outcome<Env> {
    var (e', s) := Filled(ops, line, e);
    if HasCall(s) then Calls else Done(e', buf + s + if last then "" else "\n")
  }

  /** The run methods. last says that the token has no next. */
  function RunToken<Env, Val>(ops: Ops<Env, Val>, t: Token, last: bool, e: Env, buf: string): Outcome<Env>
    decreases t, 0, 0
  {
    match t.kind
    case Data(line) => Emit(ops, line, last, e, buf)
    case Set(args) => Done(ops.assign(e, args), buf)
    case Loop(name) =>
      var (e', rows) := Found(ops, name, e);
      RunRows(ops, rows, t.kids, e', buf)
    case Cond(test) =>
      var (e', yes) := Tested(ops, test, e);
      if yes then
        if |t.kids| > 0 then RunToken(ops, t.kids[0], |t.kids| == 1, e', buf) else Done(e', buf)
      else
        if |t.kids| > 1 then RunToken(ops, t.kids[1], |t.kids| == 2, e', buf) else Done(e', buf)
    case Switch(key) => RunCases(ops, key, t.kids, e, buf)
    case _ => RunTokens(ops, t.kids, e, buf)
  }

  function RunTokens<Env, Val>(ops: Ops<Env, Val>, ts: seq<Token>, e: Env, buf: string): Outcome<Env>
    decreases ts, 0, 0
  {
    if ts == [] then Done(e, buf)
    else
      match RunToken(ops, ts[0], |ts| == 1, e, buf)
      case Calls => Calls
      case Done(e', buf') => RunTokens(ops, ts[1..], e', buf')
  }

  function RunRows<Env, Val>(ops: Ops<Env, Val>, rows: seq<Row<Val>>, ts: seq<Token>, e: Env, buf: string): Outcome<Env>
    decreases ts, 1, |rows|
  {
    if rows == [] then Done(e, buf)
    else
      match RunTokens(ops, ts, Bound(ops, rows[0], e), buf)
      case Calls => Calls
      case Done(e', buf') => RunRows(ops, rows[1..], ts, e', buf')
  }

  function RunCases<Env, Val>(ops: Ops<Env, Val>, key: string, ts: seq<Token>, e: Env, buf: string): Outcome<Env>
    decreases ts, 1, 0
  {
    if ts == [] then Done(e, buf)
    else if ts[0].kind.Case? then
      var (e', v) := ops.lookup(e, key);
      if v == ts[0].kind.value then RunToken(ops, ts[0], |ts| == 1, e', buf)
      else RunCases(ops, key, ts[1..], e', buf)
    else RunCases(ops, key, ts[1..], e, buf)
  }

  /** Scripts whose loops and conditions are closed. */
  datatype Item =
    | Text(line: string)
    | SetItem(args: string)
    | LoopItem(rows: string, body: seq<Item>)
    | IfItem(test: string, yes: seq<Item>)
    | IfElseItem(test: string, yes: seq<Item>, no: seq<Item>)

  /** A text line is one that build does not take for a command. */
  predicate WellFormed(items: seq<Item>) {
    items == [] || (WellFormedItem(items[0]) && WellFormed(items[1..]))
  }

  predicate WellFormedItem(i: Item) {
    match i
    case Text(line) => Classify(line) == TextLine(line)
    case SetItem(_) => true
    case LoopItem(_, body) => WellFormed(body)
    case IfItem(_, yes) => WellFormed(yes)
    case IfElseItem(_, yes, no) => WellFormed(yes) && WellFormed(no)
  }

  /** The script as lines of text. */
  function Lines(items: seq<Item>): seq<string>
    decreases items, 0
  {
    if items == [] then [] else ItemLines(items[0]) + Lines(items[1..])
  }

  function ItemLines(i: Item): seq<string>
    decreases i, 1
  {
    match i
    case Text(line) => [line]
    case SetItem(args) => ["@set " + args]
    case LoopItem(rows, body) => ["@loop " + rows] + Lines(body) + ["@endloop"]
    case IfItem(test, yes) => ["@if " + test] + Lines(yes) + ["@endif"]
    case IfElseItem(test, yes, no) => ["@if " + test] + Lines(yes) + ["@else"] + Lines(no) + ["@endif"]
  }

  /** What a script means, without tokens. */
  function Eval<Env, Val>(ops: Ops<Env, Val>, items: seq<Item>, e: Env, buf: string): Outcome<Env>
    decreases items, 0, 0
  {
    if items == [] then Done(e, buf)
    else
      match EvalItem(ops, items[0], |items| == 1, e, buf)
      case Calls => Calls
      case Done(e', buf') => Eval(ops, items[1..], e', buf')
  }

  function EvalItem<Env, Val>(ops: Ops<Env, Val>, i: Item, last: bool, e: Env, buf: string): Outcome<Env>
    decreases i, 0, 0
  {
    match i
    case Text(line) => Emit(ops, line, last, e, buf)
    case SetItem(args) => Done(ops.assign(e, args), buf)
    case LoopItem(name, body) =>
      var (e', rows) := Found(ops, name, e);
      EvalRows(ops, rows, body, e', buf)
    case IfItem(test, yes) =>
      var (e', b) := Tested(ops, test, e);
      if b then Eval(ops, yes, e', buf) else Done(e', buf)
    case IfElseItem(test, yes, no) =>
      var (e', b) := Tested(ops, test, e);
      if b then Eval(ops, yes, e', buf) else Eval(ops, no, e', buf)
  }

  function EvalRows<Env, Val>(ops: Ops<Env, Val>, rows: seq<Row<Val>>, body: seq<Item>, e: Env, buf: string): Outcome<Env>
    decreases body, 1, |rows|
  {
    if rows == [] then Done(e, buf)
    else
      match Eval(ops, body, Bound(ops, rows[0], e), buf)
      case Calls => Calls
      case Done(e', buf') => EvalRows(ops, rows[1..], body, e', buf')
  }

  /** The tokens a script stands for. */
  function Tokens(items: seq<Item>): (ts: seq<Token>)
    ensures |ts| == |items|
    decreases items, 0
  {
    if items == [] then [] else [ItemToken(items[0])] + Tokens(items[1..])
  }

  function ItemToken(i: Item): Token
    decreases i, 1
  {
    match i
    case Text(line) => Token(Data(line), [])
    case SetItem(args) => Token(Set(args), [])
    case LoopItem(rows, body) => Token(Loop(rows), Tokens(body))
    case IfItem(test, yes) => Token(Cond(test), [Token(Nop, Tokens(yes))])
    case IfElseItem(test, yes, no) => Token(Cond(test), [Token(Nop, Tokens(yes)), Token(Nop, Tokens(no))])
  }

  /** Running the tokens of a script is evaluating the script. */
  lemma {:induction false} TokensMean<Env, Val>(ops: Ops<Env, Val>, items: seq<Item>, e: Env, buf: string)
    ensures RunTokens(ops, Tokens(items), e, buf) == Eval(ops, items, e, buf)
    decreases items, 0, 0
  {
    if items != [] {
      assert Tokens(items)[1..] == Tokens(items[1..]);
      ItemTokenMeans(ops, items[0], |items| == 1, e, buf);
      match EvalItem(ops, items[0], |items| == 1, e, buf)
      case Calls =>
      case Done(e', buf') => TokensMean(ops, items[1..], e', buf');
    }
  }

  lemma {:induction false} ItemTokenMeans<Env, Val>(ops: Ops<Env, Val>, i: Item, last: bool, e: Env, buf: string)
    ensures RunToken(ops, ItemToken(i), last, e, buf) == EvalItem(ops, i, last, e, buf)
    decreases i, 0, 0
  {
    match i
    case Text(_) =>
    case SetItem(_) =>
    case LoopItem(name, body) =>
      RowsMean(ops, Found(ops, name, e).1, body, Found(ops, name, e).0, buf);
    case IfItem(test, yes) => TokensMean(ops, yes, Tested(ops, test, e).0, buf);
    case IfElseItem(test, yes, no) =>
      TokensMean(ops, yes, Tested(ops, test, e).0, buf);
      TokensMean(ops, no, Tested(ops, test, e).0, buf);
  }

  lemma {:induction false} RowsMean<Env, Val>(ops: Ops<Env, Val>, rows: seq<Row<Val>>, body: seq<Item>, e: Env, buf: string)
    ensures RunRows(ops, rows, Tokens(body), e, buf) == EvalRows(ops, rows, body, e, buf)
    decreases body, 1, |rows|
  {
    if rows != [] {
      TokensMean(ops, body, Bound(ops, rows[0], e), buf);
      match Eval(ops, body, Bound(ops, rows[0], e), buf)
      case Calls =>
      case Done(e', buf') => RowsMean(ops, rows[1..], body, e', buf');
    }
  }
}

/** Printing a script and building it again. */
module ScriptRoundTrip {
  import opened Wrappers
  import opened ScriptLines
  import opened Text
  import opened ScriptBuilder
  import opened ScriptMeaning

  /** From b to b' the token under the cursor got the children ts, and nothing else that
      was there changed. */
  ghost predicate Built(b: Builder, b': Builder, ts: seq<Token>) {
    && Good(b) && Good(b')
    && b'.cc == b.cc && b'.crsr == b.crsr && b'.labels == b.labels
    && Grows(b.a, b'.a, b.cc) && NewKids(b.a, b'.a, b.cc) == ts
  }

  lemma SetReadsBack(args: string)
    ensures Classify("@set " + args) == Assign(args)
  {
    CommandIsReadBack("@set", args);
    assert "@set" + " " + args == "@set " + args;
  }

  lemma LoopReadsBack(args: string)
    ensures Classify("@loop " + args) == OpenLoop(args) && Classify("@endloop") == CloseLoop
  {
    CommandIsReadBack("@loop", args);
    CommandIsReadBack("@endloop", "");
    assert "@loop" + " " + args == "@loop " + args;
  }

  lemma IfReadsBack(args: string)
    ensures Classify("@if " + args) == OpenIf(args)
  {
    CommandIsReadBack("@if", args);
    assert "@if" + " " + args == "@if " + args;
  }

  lemma ElseReadsBack()
    ensures Classify("@else") == Else && Classify("@endif") == CloseIf
  {
    CommandIsReadBack("@else", "");
    CommandIsReadBack("@endif", "");
  }

  lemma SectionReadsBack(args: string)
    ensures Classify("@section " + args) == Section(args)
  {
    CommandIsReadBack("@section", args);
    assert "@section" + " " + args == "@section " + args;
  }

  lemma {:induction false} OneLine(b: Builder, line: string)
    requires Good(b)
    ensures BuildLines(b, [line]) == Step(b, Classify(line))
  {
    StepKeepsGood(b, Classify(line));
    if Step(b, Classify(line)).Ok? {
      assert BuildLines(Step(b, Classify(line)).value, [line][1..]) == Step(b, Classify(line));
    }
  }

  /** A token without children. */
  lemma LeafBuilt(b: Builder, k: Kind)
    requires Good(b)
    ensures Built(b, b.(a := Append(b.a, k, b.cc)), [Token(k, [])])
  {
    GrowKeepsGood(b, k);
    var a' := Append(b.a, k, b.cc);
    GrowsBelow(b.a, k, b.cc, a');
  }

  /** Enter a new token, build below it, and come back: one child more. */
  lemma NestBuilt(b: Builder, k: Kind, inner: Builder, ts: seq<Token>)
    requires Good(b) && Built(Enter(b, k), inner, ts)
    ensures Built(b, inner.(cc := b.cc), [Token(k, ts)])
  {
    GrowKeepsGood(b, k);
    GrowsBelow(b.a, k, b.cc, inner.a);
  }

  lemma BuiltInSteps(b: Builder, b': Builder, b'': Builder, ts: seq<Token>, ts': seq<Token>)
    requires Built(b, b', ts) && Built(b', b'', ts')
    ensures Built(b, b'', ts + ts')
  {
    GrowsInSteps(b.a, b'.a, b''.a, b.cc);
  }

  /** Building the printed script under any cursor adds exactly the script's tokens, and
      leaves the cursor where it was. */
  lemma {:induction false} LinesBuild(b: Builder, items: seq<Item>)
    requires Good(b) && WellFormed(items)
    ensures BuildLines(b, Lines(items)).Ok?
    ensures Built(b, BuildLines(b, Lines(items)).value, Tokens(items))
    decreases items, 0
  {
    hide Built;
    if items == [] {
      NothingBuilt(b);
    } else {
      ItemLinesBuild(b, items[0]);
      var b' := BuildLines(b, ItemLines(items[0])).value;
      LinesBuild(b', items[1..]);
      BuildInTwo(b, ItemLines(items[0]), Lines(items[1..]));
      BuiltInSteps(b, b', BuildLines(b', Lines(items[1..])).value, [ItemToken(items[0])], Tokens(items[1..]));
    }
  }

  lemma NothingBuilt(b: Builder)
    requires Good(b)
    ensures Built(b, b, [])
  {
  }

  lemma {:induction false} ItemLinesBuild(b: Builder, i: Item)
    requires Good(b) && WellFormedItem(i)
    ensures BuildLines(b, ItemLines(i)).Ok?
    ensures Built(b, BuildLines(b, ItemLines(i)).value, [ItemToken(i)])
    decreases i, 3
  {
    hide Classify, Built;
    match i
    case Text(line) =>
      OneLine(b, line);
      LeafBuilt(b, Data(line));
    case SetItem(args) =>
      SetReadsBack(args);
      OneLine(b, "@set " + args);
      LeafBuilt(b, Set(args));
    case LoopItem(_, _) => LoopBuilds(b, i);
    case IfItem(_, _) => IfBuilds(b, i);
    case IfElseItem(_, _, _) => IfElseBuilds(b, i);
  }

  /** One line that makes a token below b's cursor and enters it, and the lines below. */
  lemma {:induction false} OpenBuilds(from: Builder, line: string, b: Builder, k: Kind, inner: seq<Item>)
    requires Good(from) && Good(b) && WellFormed(inner)
    requires Step(from, Classify(line)) == Ok(Enter(b, k))
    ensures BuildLines(from, [line] + Lines(inner)).Ok?
    ensures var b' := BuildLines(from, [line] + Lines(inner)).value;
      && Good(b') && b.cc < b'.cc == |b.a.kind| && b'.a.parent[b'.cc] == b.cc && b'.a.kind[b'.cc] == k
      && Built(b, b'.(cc := b.cc), [Token(k, Tokens(inner))])
    decreases inner, 1
  {
    hide Step, Classify;
    GrowKeepsGood(b, k);
    OneLine(from, line);
    var b1 := Enter(b, k);
    LinesBuild(b1, inner);
    BuildInTwo(from, [line], Lines(inner));
    var b2 := BuildLines(b1, Lines(inner)).value;
    NestBuilt(b, k, b2, Tokens(inner));
    assert b1.a.parent[b1.cc] == b.cc && b1.a.parent <= b2.a.parent && b1.a.kind[b1.cc] == k && b1.a.kind <= b2.a.kind;
  }

  lemma {:induction false} LoopBuilds(b: Builder, i: Item)
    requires Good(b) && WellFormedItem(i) && i.LoopItem?
    ensures BuildLines(b, ItemLines(i)).Ok?
    ensures Built(b, BuildLines(b, ItemLines(i)).value, [ItemToken(i)])
    decreases i, 2
  {
    hide Classify, Built, Wf;
    LoopReadsBack(i.rows);
    OpenBuilds(b, "@loop " + i.rows, b, Loop(i.rows), i.body);
    var head := ["@loop " + i.rows] + Lines(i.body);
    OneLine(BuildLines(b, head).value, "@endloop");
    BuildInTwo(b, head, ["@endloop"]);
  }

  /** The lines from @if up to, not including, @else or @endif. */
  lemma {:induction false} YesBuilds(b: Builder, test: string, yes: seq<Item>)
    requires Good(b) && WellFormed(yes)
    ensures BuildLines(b, ["@if " + test] + Lines(yes)).Ok?
    ensures var b1, b' := Enter(b, Cond(test)), BuildLines(b, ["@if " + test] + Lines(yes)).value;
      && Good(b1) && Good(b') && AtCond(b, b')
      && Built(b1, b'.(cc := b1.cc), [Token(Nop, Tokens(yes))])
    decreases yes, 2
  {
    IfReadsBack(test);
    GrowKeepsGood(b, Cond(test));
    OpenBuilds(b, "@if " + test, Enter(b, Cond(test)), Nop, yes);
  }

  /** The cursor is in a branch of the condition that was made from b. */
  ghost predicate AtCond(b: Builder, b': Builder)
    requires Good(b')
  {
    |b.a.kind| < b'.cc && b'.a.parent[b'.cc] == |b.a.kind|
  }

  /** In a branch, @else opens the other one and @endif leaves the condition. */
  lemma BranchSteps(b: Builder, test: string, b': Builder, ts: seq<Token>)
    requires Good(b) && Good(b') && AtCond(b, b')
    requires Good(Enter(b, Cond(test))) && Built(Enter(b, Cond(test)), b'.(cc := |b.a.kind|), ts)
    ensures Step(b', Else) == Ok(Enter(b'.(cc := |b.a.kind|), Nop))
    ensures Step(b', CloseIf) == Ok(b'.(cc := b.cc))
  {
    var a := Enter(b, Cond(test)).a;
    assert a.kind <= b'.a.kind && a.parent <= b'.a.parent;
    assert a.kind[|b.a.kind|] == Cond(test) && a.parent[|b.a.kind|] == b.cc;
  }

  lemma {:induction false} CloseCondition(b: Builder, test: string, b': Builder, ts: seq<Token>)
    requires Good(b) && Good(b') && AtCond(b, b')
    requires Good(Enter(b, Cond(test))) && Built(Enter(b, Cond(test)), b'.(cc := |b.a.kind|), ts)
    ensures BuildLines(b', ["@endif"]).Ok?
    ensures Built(b, BuildLines(b', ["@endif"]).value, [Token(Cond(test), ts)])
  {
    hide Step, Classify;
    ElseReadsBack();
    OneLine(b', "@endif");
    BranchSteps(b, test, b', ts);
    NestBuilt(b, Cond(test), b'.(cc := |b.a.kind|), ts);
  }

  lemma {:induction false} IfBuilds(b: Builder, i: Item)
    requires Good(b) && WellFormedItem(i) && i.IfItem?
    ensures BuildLines(b, ItemLines(i)).Ok?
    ensures Built(b, BuildLines(b, ItemLines(i)).value, [ItemToken(i)])
    decreases i, 2
  {
    hide Classify, Built, Wf, AtCond;
    YesBuilds(b, i.test, i.yes);
    var head := ["@if " + i.test] + Lines(i.yes);
    CloseCondition(b, i.test, BuildLines(b, head).value, [Token(Nop, Tokens(i.yes))]);
    BuildInTwo(b, head, ["@endif"]);
  }

  /** The lines from @else up to, not including, @endif. */
  lemma {:induction false} NoBuilds(b: Builder, test: string, b': Builder, yes: seq<Token>, no: seq<Item>)
    requires Good(b) && Good(b') && AtCond(b, b') && WellFormed(no)
    requires Good(Enter(b, Cond(test))) && Built(Enter(b, Cond(test)), b'.(cc := |b.a.kind|), yes)
    ensures BuildLines(b', ["@else"] + Lines(no)).Ok?
    ensures var b'' := BuildLines(b', ["@else"] + Lines(no)).value;
      && Good(b'') && AtCond(b, b'')
      && Built(Enter(b, Cond(test)), b''.(cc := |b.a.kind|), yes + [Token(Nop, Tokens(no))])
    decreases no, 2
  {
    hide Step, Classify;
    ElseReadsBack();
    BranchSteps(b, test, b', yes);
    var at := b'.(cc := |b.a.kind|);
    OpenBuilds(b', "@else", at, Nop, no);
    var b'' := BuildLines(b', ["@else"] + Lines(no)).value;
    BuiltInSteps(Enter(b, Cond(test)), at, b''.(cc := |b.a.kind|), yes, [Token(Nop, Tokens(no))]);
  }

  lemma {:induction false} IfElseBuilds(b: Builder, i: Item)
    requires Good(b) && WellFormedItem(i) && i.IfElseItem?
    ensures BuildLines(b, ItemLines(i)).Ok?
    ensures Built(b, BuildLines(b, ItemLines(i)).value, [ItemToken(i)])
    decreases i, 2
  {
    hide Classify, Built, Wf, AtCond;
    YesBuilds(b, i.test, i.yes);
    var head, tail := ["@if " + i.test] + Lines(i.yes), ["@else"] + Lines(i.no);
    var b3 := BuildLines(b, head).value;
    var yes, no := Token(Nop, Tokens(i.yes)), Token(Nop, Tokens(i.no));
    NoBuilds(b, i.test, b3, [yes], i.no);
    BuildInTwo(b, head, tail);
    assert [yes] + [no] == [yes, no];
    CloseCondition(b, i.test, BuildLines(b3, tail).value, [yes, no]);
    BuildInTwo(b, head + tail, ["@endif"]);
    IfElseLines(i);
  }

  lemma {:induction false} IfElseLines(i: Item)
    requires i.IfElseItem?
    ensures ItemLines(i) == (["@if " + i.test] + Lines(i.yes)) + (["@else"] + Lines(i.no)) + ["@endif"]
  {
  }

  /** Tokens under another child of the parser than p do not see what p gets. */
  lemma {:induction false} OtherSectionsStay(a: Arena, a': Arena, p: nat, i: nat)
    requires Grows(a, a', p) && a.parent[p] == 0 && 0 < i < |a.kind| && i != p
    ensures TokenAt(a', i) == TokenAt(a, i)
    decreases |a.kind| - i
  {
    assert Children(a, i, a.kids[i]);
    forall j | 0 <= j < |a.kids[i]| ensures TokenAt(a', a'.kids[i][j]) == TokenAt(a, a.kids[i][j]) {
      OtherSectionsStay(a, a', p, a.kids[i][j]);
    }
  }

  /** The children of the parser, with their tokens. */
  ghost predicate Adds(b: Builder, b': Builder, t: Token) {
    && Good(b) && Good(b')
    && b'.a.kids[0] == b.a.kids[0] + [|b.a.kind|] && |b.a.kind| < |b'.a.kind|
    && TokenAt(b'.a, |b.a.kind|) == t
    && forall i :: 0 <= i <= b.crsr ==> TokenAt(b'.a, b.a.kids[0][i]) == TokenAt(b.a, b.a.kids[0][i])
  }

  lemma SectionAdds(b: Builder, name: string, b': Builder, ts: seq<Token>)
    requires Good(b) && Built(Declared(b, name), b', ts)
    ensures Adds(b, b', Token(Nop, ts))
  {
    var n, a := |b.a.kind|, Append(b.a, Nop, 0);
    assert TokenAt(b'.a, n).kids[0..] == TokenAt(b'.a, n).kids;
    assert Children(b.a, 0, b.a.kids[0]);
    forall i | 0 <= i <= b.crsr ensures TokenAt(b'.a, b.a.kids[0][i]) == TokenAt(b.a, b.a.kids[0][i]) {
      LaterTokensStay(b.a, a, 0, b.a.kids[0][i]);
      OtherSectionsStay(a, b'.a, n, b.a.kids[0][i]);
    }
  }

  lemma SectionStep(b: Builder, name: string)
    requires Good(b)
    ensures |b.a.kids| > 0 && Step(b, Section(name)) == Ok(Declared(b, name))
  {
  }

  /** A section adds its own token to the parser and leaves the others alone. */
  lemma {:induction false} SectionBuilds(b: Builder, name: string, body: seq<Item>)
    requires Good(b) && WellFormed(body)
    ensures BuildLines(b, ["@section " + name] + Lines(body)).Ok?
    ensures var b' := BuildLines(b, ["@section " + name] + Lines(body)).value;
      && Adds(b, b', Token(Nop, Tokens(body)))
      && b'.crsr == b.crsr + 1 && b'.labels == b.labels[Fold(name) := b.crsr + 1]
  {
    hide Classify, Adds, Wf, Step;
    SectionReadsBack(name);
    OneLine(b, "@section " + name);
    DeclareKeepsGood(b, name);
    SectionStep(b, name);
    LinesBuild(Declared(b, name), body);
    BuildInTwo(b, ["@section " + name], Lines(body));
    SectionAdds(b, name, BuildLines(Declared(b, name), Lines(body)).value, Tokens(body));
  }

  /** A template: what stands before the first section, and the sections. */
  datatype Template = Template(preamble: seq<Item>, sections: seq<(string, seq<Item>)>)

  function SectionLines(secs: seq<(string, seq<Item>)>): seq<string> {
    if secs == [] then [] else ["@section " + secs[0].0] + Lines(secs[0].1) + SectionLines(secs[1..])
  }

  function TemplateLines(t: Template): seq<string> {
    Lines(t.preamble) + SectionLines(t.sections)
  }

  predicate WellFormedTemplate(t: Template) {
    WellFormed(t.preamble) && forall s <- t.sections :: WellFormed(s.1)
  }

  /** The items that a label stands for: those of the last section of that name. */
  function Named(secs: seq<(string, seq<Item>)>, l: string, otherwise: seq<Item>): seq<Item> {
    if secs == [] then otherwise
    else Named(secs[1..], l, if Fold(secs[0].0) == Fold(l) then secs[0].1 else otherwise)
  }

  /** scriptparser::run (label). */
  function Run<Env, Val>(ops: Ops<Env, Val>, b: Builder, l: string, e: Env, buf: string): Outcome<Env>
    requires Good(b)
  {
    RunToken(ops, TokenAt(b.a, Target(b, l)), false, e, buf)
  }

  lemma {:induction false} SectionsBuild(b: Builder, secs: seq<(string, seq<Item>)>, l: string, items: seq<Item>)
    requires Good(b) && (forall s <- secs :: WellFormed(s.1))
    requires TokenAt(b.a, Target(b, l)) == Token(Nop, Tokens(items))
    ensures BuildLines(b, SectionLines(secs)).Ok?
    ensures var b' := BuildLines(b, SectionLines(secs)).value;
      TokenAt(b'.a, Target(b', l)) == Token(Nop, Tokens(Named(secs, l, items)))
    decreases |secs|
  {
    if secs != [] {
      var head := ["@section " + secs[0].0] + Lines(secs[0].1);
      SectionBuilds(b, secs[0].0, secs[0].1);
      BuildInTwo(b, head, SectionLines(secs[1..]));
      SectionsBuild(BuildLines(b, head).value, secs[1..], l,
                    if Fold(secs[0].0) == Fold(l) then secs[0].1 else items);
    }
  }

  lemma {:induction false} PreambleBuilds(items: seq<Item>, l: string)
    requires WellFormed(items)
    ensures BuildLines(START, Lines(items)).Ok?
    ensures var b := BuildLines(START, Lines(items)).value;
      Target(b, l) == 1 && TokenAt(b.a, 1) == Token(Nop, Tokens(items))
  {
    LinesBuild(START, items);
    var b := BuildLines(START, Lines(items)).value;
    assert TokenAt(b.a, 1).kids[0..] == TokenAt(b.a, 1).kids;
    assert START.a.kids[0] == [1] && b.a.kids[0] == START.a.kids[0];
  }

  /** Under every label of a template's lines hang the tokens of that label's items. */
  lemma {:induction false} TemplateBuilds(t: Template, l: string)
    requires WellFormedTemplate(t)
    ensures Good(START) && BuildLines(START, TemplateLines(t)).Ok?
    ensures var b := BuildLines(START, TemplateLines(t)).value;
      TokenAt(b.a, Target(b, l)) == Token(Nop, Tokens(Named(t.sections, l, t.preamble)))
  {
    hide Step, Classify, Wf, Built;
    assert Good(START) by { StartIsGood(); }
    PreambleBuilds(t.preamble, l);
    BuildInTwo(START, Lines(t.preamble), SectionLines(t.sections));
    SectionsBuild(BuildLines(START, Lines(t.preamble)).value, t.sections, l, t.preamble);
  }
}
