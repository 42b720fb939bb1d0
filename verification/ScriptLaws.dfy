/**
 What the parts of the template engine (src/libgrace/cmdtoken.cpp) mean by themselves: the
 expansion of text, the conditions, the rows of a loop, the cases of a switch, and the lines
 that are read as commands.
 */
module ScriptLaws {
  import opened Wrappers
  import opened Text
  import opened Numbers
  import opened ScriptLines
  import opened ScriptBuilder
  import opened ScriptMeaning
  import opened ScriptRoundTrip

  lemma {:induction false} SplitOnce(a: string, c: char, rest: string)
    requires c !in a
    ensures Split(a + [c] + rest, c) == [a] + Split(rest, c)
    ensures Split(a, c) == [a]
  {
    FirstIndex(a, c, rest);
    var s := a + [c] + rest;
    assert s[..|a|] == a && s[|a| + 1..] == rest;
  }

  lemma {:induction false} PartsGoOn<Env, Val>(ops: Ops<Env, Val>, parts: seq<string>, odd: bool, e: Env, acc: string)
    ensures var (e', s) := Parts<Env, Val>(ops, parts, odd, e, ""); Parts(ops, parts, odd, e, acc) == (e', acc + s)
    decreases |parts|
  {
    if parts == [] {
      assert acc + "" == acc;
    } else {
      var (e', s) := if !odd then (e, parts[0]) else if parts[0] == "" then (e, "$") else ops.expand(e, parts[0]);
      assert "" + s == s;
      PartsGoOn(ops, parts[1..], !odd, e', acc + s);
      PartsGoOn(ops, parts[1..], !odd, e', s);
      var more := Parts<Env, Val>(ops, parts[1..], !odd, e', "").1;
      assert (acc + s) + more == acc + (s + more);
    }
  }

  lemma PlainText<Env, Val>(ops: Ops<Env, Val>, a: string, e: Env)
    requires '$' !in a
    ensures Filled(ops, a, e) == (e, a)
  {
    SplitOnce(a, '$', "");
    assert [a][1..] == [] && "" + a == a;
    assert Parts<Env, Val>(ops, [a], false, e, "") == Parts<Env, Val>(ops, [a][1..], true, e, "" + a);
  }

  lemma {:induction false} TwoParts<Env, Val>(ops: Ops<Env, Val>, a: string, x: string, more: seq<string>, e: Env)
    ensures var (e', v) := if x == "" then (e, "$") else ops.expand(e, x);
      Parts<Env, Val>(ops, [a, x] + more, false, e, "") == Parts<Env, Val>(ops, more, false, e', a + v)
  {
    var all := [a, x] + more;
    var (e', v) := if x == "" then (e, "$") else ops.expand(e, x);
    assert all[1..] == [x] + more && all[1..][1..] == more && "" + a == a;
    assert Parts<Env, Val>(ops, all, false, e, "") == Parts<Env, Val>(ops, all[1..], true, e, a);
  }

  lemma {:induction false} SplitTwice(a: string, x: string, rest: string)
    requires '$' !in a && '$' !in x
    ensures Split(a + "$" + x + "$" + rest, '$') == [a, x] + Split(rest, '$')
  {
    assert a + "$" + x + "$" + rest == a + ['$'] + (x + ['$'] + rest);
    SplitOnce(a, '$', x + ['$'] + rest);
    SplitOnce(x, '$', rest);
  }

  /** Text without a dollar sign is as it is; between two of them is an expression, which
      stands for its value, and for a dollar sign when it is empty. */
  lemma FilledIs<Env, Val>(ops: Ops<Env, Val>, a: string, x: string, rest: string, e: Env)
    requires '$' !in a && '$' !in x
    ensures Filled(ops, a, e) == (e, a)
    ensures var (e', v) := if x == "" then (e, "$") else ops.expand(e, x);
      var (e'', more) := Filled(ops, rest, e');
      Filled(ops, a + "$" + x + "$" + rest, e) == (e'', a + v + more)
  {
    PlainText(ops, a, e);
    SplitTwice(a, x, rest);
    TwoParts(ops, a, x, Split(rest, '$'), e);
    var (e', v) := if x == "" then (e, "$") else ops.expand(e, x);
    PartsGoOn(ops, Split(rest, '$'), false, e', a + v);
  }

  predicate CallAt(s: string, i: nat) {
    i + 1 < |s| && s[i] == '<' && s[i + 1] == '<'
  }

  /** A text calls a section where it has two less-than signs. */
  lemma {:induction false} HasCallIs(s: string)
    ensures HasCall(s) <==> exists i: nat :: CallAt(s, i)
  {
    if |s| >= 2 {
      HasCallIs(s[1..]);
      assert s[..2] == "<<" <==> CallAt(s, 0);
      forall i: nat ensures CallAt(s[1..], i) <==> CallAt(s, i + 1) {
      }
      if i: nat :| CallAt(s, i) {
        if i > 0 { assert CallAt(s[1..], i - 1); }
      }
    }
  }

  /** A line of plain text is put behind the output, with a newline unless it is the last of
      its block. */
  lemma {:induction false} PlainLine<Env, Val>(ops: Ops<Env, Val>, line: string, kids: seq<Token>, last: bool, e: Env, buf: string)
    requires '$' !in line && !exists i: nat :: CallAt(line, i)
    ensures RunToken(ops, Token(Data(line), kids), last, e, buf) == Done(e, buf + line + if last then "" else "\n")
  {
    PlainText(ops, line, e);
    HasCallIs(line);
  }

  /** The k-th branch of a condition. */
  function Branch<Env, Val>(ops: Ops<Env, Val>, kids: seq<Token>, k: nat, e: Env, buf: string): Outcome<Env> {
    if k < |kids| then RunToken(ops, kids[k], k + 1 == |kids|, e, buf) else Done(e, buf)
  }

  /** A condition of one word takes the first branch when its text is not empty. */
  lemma {:induction false} OneWordDecides<Env, Val>(ops: Ops<Env, Val>, test: string, kids: seq<Token>, last: bool, e: Env, buf: string)
    requires |ops.words(test)| == 1
    ensures var (e', text) := Filled(ops, ops.words(test)[0], e);
      RunToken(ops, Token(Cond(test), kids), last, e, buf) == Branch(ops, kids, if text == "" then 1 else 0, e', buf)
  {
  }

  /** A condition of three words takes the first branch if and only if the two texts are as the
      word between them says. */
  lemma {:induction false} ThreeWordsDecide<Env, Val>(ops: Ops<Env, Val>, test: string, kids: seq<Token>, last: bool, e: Env, buf: string)
    requires |ops.words(test)| == 3
    ensures var words := ops.words(test);
      var (e', left) := Filled(ops, words[0], e);
      var (e'', right) := Filled(ops, words[2], e');
      var run := RunToken(ops, Token(Cond(test), kids), last, e, buf);
      var first, second := Branch(ops, kids, 0, e'', buf), Branch(ops, kids, 1, e'', buf);
      && (words[1] == "==" ==> run == if left == right then first else second)
      && (words[1] == "!=" ==> run == if left == right then second else first)
      && (words[1] == "~=" ==> run == if ops.glob(left, right) then first else second)
      && (words[1] == "<" ==> run == if ops.order(left, right) < 0 then first else second)
      && (words[1] == ">" ==> run == if ops.order(left, right) > 0 then first else second)
      && (words[1] !in {"==", "!=", "~=", "<", ">"} ==> run == second)
  {
  }

  /** With any other number of words, those that are missing are empty. */
  lemma {:induction false} OtherWordsDecide<Env, Val>(ops: Ops<Env, Val>, test: string, kids: seq<Token>, last: bool, e: Env, buf: string)
    requires |ops.words(test)| == 0 || |ops.words(test)| == 2
    ensures var words := ops.words(test);
      var (e', left) := if words == [] then (e, "") else Filled(ops, words[0], e);
      var run := RunToken(ops, Token(Cond(test), kids), last, e, buf);
      var first, second := Branch(ops, kids, 0, e', buf), Branch(ops, kids, 1, e', buf);
      && (words == [] ==> run == second)
      && (|words| == 2 && words[1] == "==" ==> run == if left == "" then first else second)
      && (|words| == 2 && words[1] == "!=" ==> run == if left == "" then second else first)
  {
    PlainText(ops, "", e);
    var words := ops.words(test);
    if words != [] { PlainText(ops, "", Filled(ops, words[0], e).0); }
  }

  /** What a variable space has after the rows of vars from j on. */
  ghost predicate Binds<Val>(vars: seq<Var<Val>>, j: nat, e: map<string, Val>, b: map<string, Val>) {
    && (forall k :: j <= k < |vars| && IsLast(vars, k) ==> vars[k].id in b && b[vars[k].id] == vars[k].value)
    && (forall k :: j <= k < |vars| && vars[k].leaf && IsPlace(vars, k) ==> Dec(k) in b && b[Dec(k)] == vars[k].value)
    && (forall n :: Untouched(vars, j, n) ==> (n in b <==> n in e) && (n in e ==> b[n] == e[n]))
  }

  /** Nothing behind the k-th has its name, or a place of that name. */
  ghost predicate IsLast<Val>(vars: seq<Var<Val>>, k: nat)
    requires k < |vars|
  {
    Untouched(vars, k + 1, vars[k].id)
  }

  /** The k-th and those behind it have no name that is the k-th place. */
  ghost predicate IsPlace<Val>(vars: seq<Var<Val>>, k: nat)
    requires k < |vars|
  {
    vars[k].id != Dec(k) && Untouched(vars, k + 1, Dec(k))
  }

  ghost predicate Untouched<Val>(vars: seq<Var<Val>>, j: nat, n: string) {
    forall k :: j <= k < |vars| ==> vars[k].id != n && (vars[k].leaf ==> Dec(k) != n)
  }

  lemma {:induction false} BoundFromBinds<Val>(ops: Ops<map<string, Val>, Val>, vars: seq<Var<Val>>, j: nat, e: map<string, Val>)
    requires j <= |vars| && forall m, n, x :: ops.put(m, n, x) == m[n := x]
    ensures Binds(vars, j, e, BoundFrom(ops, vars, j, e))
    decreases |vars| - j
  {
    if j < |vars| {
      var placed := if vars[j].leaf then e[Dec(j) := vars[j].value] else e;
      var named := placed[vars[j].id := vars[j].value];
      BoundFromBinds(ops, vars, j + 1, named);
      var b := BoundFrom(ops, vars, j, e);
      assert b == BoundFrom(ops, vars, j + 1, named);
      if IsLast(vars, j) { assert Untouched(vars, j + 1, vars[j].id); }
      if IsPlace(vars, j) { assert Untouched(vars, j + 1, Dec(j)); }
      forall n | Untouched(vars, j, n) ensures (n in b <==> n in e) && (n in e ==> b[n] == e[n]) {
        assert Untouched(vars, j + 1, n);
      }
    }
  }

  /** With variables in a map: a row binds each of its values by its name, the leaves by place
      too, its own name to "@", and, when nothing is in it, itself to "0"; where two of these
      meet the later one counts, and nothing else changes. */
  lemma RowBinds<Val>(ops: Ops<map<string, Val>, Val>, row: Row<Val>, e: map<string, Val>)
    requires forall m, n, x :: ops.put(m, n, x) == m[n := x]
    ensures var b, vars := Bound(ops, row, e), row.vars;
      && (forall k :: 0 <= k < |vars| && IsLast(vars, k) ==> vars[k].id in b && b[vars[k].id] == vars[k].value)
      && (forall k :: 0 <= k < |vars| && vars[k].leaf && IsPlace(vars, k) ==> Dec(k) in b && b[Dec(k)] == vars[k].value)
      && (row.name.Some? && Untouched(vars, 0, "@") ==> "@" in b && b["@"] == ops.text(row.name.value))
      && (vars == [] ==> "0" in b && b["0"] == row.value)
      && forall n :: Untouched(vars, 0, n) && (row.name.Some? ==> n != "@") && (vars == [] ==> n != "0") ==>
        (n in b <==> n in e) && (n in e ==> b[n] == e[n])
  {
    hide IsLast, IsPlace, Untouched;
    var e' := if row.name.Some? then e["@" := ops.text(row.name.value)] else e;
    var e'' := if row.vars == [] then e'["0" := row.value] else e';
    BoundFromBinds(ops, row.vars, 0, e'');
    if row.name.Some? { PutIs(ops, e, "@", ops.text(row.name.value)); }
    PutIs(ops, e', "0", row.value);
    assert Bound(ops, row, e) == BoundFrom(ops, row.vars, 0, e'');
    if row.vars == [] { NothingUntouched(row.vars, "0"); }
  }

  lemma PutIs<Val>(ops: Ops<map<string, Val>, Val>, m: map<string, Val>, n: string, x: Val)
    requires forall m, n, x :: ops.put(m, n, x) == m[n := x]
    ensures ops.put(m, n, x) == m[n := x]
  {
  }

  lemma NothingUntouched<Val>(vars: seq<Var<Val>>, n: string)
    requires vars == []
    ensures Untouched(vars, 0, n)
  {
  }

  /** A loop over a plain name finds the rows of that name, and counts them. */
  lemma LoopFinds<Env, Val>(ops: Ops<Env, Val>, name: string, e: Env)
    requires '$' !in name
    ensures var (e', rows) := ops.rows(e, name); Found(ops, name, e) == (ops.put(e', "_loopcount", ops.number(|rows|)), rows)
  {
    PlainText(ops, name, e);
  }

  /** Of the tokens below a switch the first case with the key's value runs, and nothing when
      there is none; looking the key up is to leave the variables alone. */
  lemma {:induction false} FirstCaseRuns<Env, Val>(ops: Ops<Env, Val>, key: string, v: string, ts: seq<Token>, k: nat, e: Env, buf: string)
    requires ops.lookup(e, key) == (e, v) && k <= |ts|
    requires (forall j :: 0 <= j < k ==> ts[j].kind != Case(v)) && (k < |ts| ==> ts[k].kind == Case(v))
    ensures RunCases(ops, key, ts, e, buf) == if k == |ts| then Done(e, buf) else RunToken(ops, ts[k], k + 1 == |ts|, e, buf)
    decreases |ts|
  {
    if k > 0 { FirstCaseRuns(ops, key, v, ts[1..], k - 1, e, buf); }
  }

  lemma DefineReadsBack(name: string, text: string)
    requires ' ' !in name
    ensures Classify("@define " + name + " " + text) == Define(name, text)
  {
    var args := name + " " + text;
    CommandIsReadBack("@define", args);
    assert "@define" + " " + args == "@define " + name + " " + text;
    FirstIndex(name, ' ', text);
    assert args == name + [' '] + text && args[..|name|] == name && args[|name| + 1..] == text;
  }

  /** A name without text is taken for the text of a label without name. */
  lemma DefineWithoutText(name: string)
    requires ' ' !in name
    ensures Classify("@define " + name) == Define("", name)
  {
    CommandIsReadBack("@define", name);
    assert "@define" + " " + name == "@define " + name;
    FirstIndex(name, ' ', "");
  }

  lemma SwitchReadsBack(args: string)
    ensures Classify("@switch " + args) == OpenSwitch(args)
  {
    CommandIsReadBack("@switch", args);
    assert "@switch" + " " + args == "@switch " + args;
  }

  lemma CaseReadsBack(args: string)
    ensures Classify("@case " + args) == OpenCase(args)
  {
    CommandIsReadBack("@case", args);
    assert "@case" + " " + args == "@case " + args;
  }

  lemma EndSwitchReadsBack()
    ensures Classify("@endswitch") == CloseSwitch
  {
    CommandIsReadBack("@endswitch", "");
  }

  const COMMANDS: set<string> := {
    "@section", "@define", "@switch", "@endswitch", "@case", "@loop", "@endloop", "@if", "@else", "@endif", "@set"
  }

  /** Any other word behind an at sign is no command, and ignored. */
  lemma OtherWordsAreIgnored(word: string, args: string)
    requires word != "" && word[0] == '@' && ' ' !in word && word !in COMMANDS
    ensures Classify(word + " " + args) == Unknown && Classify(word) == Unknown
  {
    CommandIsReadBack(word, args);
  }

  /** Blanks before a command do not matter; a line that has something else first is text, with
      its blanks. */
  lemma {:induction false} BlanksAreSkipped(blanks: string, line: string)
    requires (forall c <- blanks :: c == ' ' || c == '\t') && (line != "" ==> line[0] != ' ' && line[0] != '\t')
    ensures SkipBlanks(blanks + line) == line
  {
    if blanks == "" {
      assert blanks + line == line;
    } else {
      assert (blanks + line)[1..] == blanks[1..] + line && blanks[0] in blanks;
      assert forall c <- blanks[1..] :: c in blanks;
      BlanksAreSkipped(blanks[1..], line);
    }
  }

  lemma IndentedLines(blanks: string, line: string)
    requires (forall c <- blanks :: c == ' ' || c == '\t') && (line != "" ==> line[0] != ' ' && line[0] != '\t')
    ensures line != "" && line[0] == '@' ==> Classify(blanks + line) == Classify(line)
    ensures line == "" || line[0] != '@' ==> Classify(blanks + line) == TextLine(blanks + line)
  {
    BlanksAreSkipped(blanks, line);
    BlanksAreSkipped("", line);
    assert "" + line == line;
    hide Classify;
    if line != "" && line[0] == '@' {
      SameWhenStripped(blanks + line, line);
    } else {
      TextWhenStripped(blanks + line);
    }
  }

  lemma {:induction false} SameWhenStripped(x: string, y: string)
    requires SkipBlanks(x) == SkipBlanks(y) == y && y != "" && y[0] == '@'
    ensures Classify(x) == Classify(y)
  {
    hide SplitCommand;
  }

  lemma {:induction false} TextWhenStripped(x: string)
    requires SkipBlanks(x) == "" || SkipBlanks(x)[0] != '@'
    ensures Classify(x) == TextLine(x)
  {
    hide SplitCommand;
  }

  /** A switch as lines, and as tokens. */
  function CaseLines(cases: seq<(string, seq<Item>)>): seq<string> {
    if cases == [] then [] else ["@case " + cases[0].0] + Lines(cases[0].1) + CaseLines(cases[1..])
  }

  function CaseTokens(cases: seq<(string, seq<Item>)>): (ts: seq<Token>)
    ensures |ts| == |cases| && forall i :: 0 <= i < |ts| ==> ts[i] == Token(Case(cases[i].0), Tokens(cases[i].1))
  {
    seq(|cases|, i requires 0 <= i < |cases| => Token(Case(cases[i].0), Tokens(cases[i].1)))
  }

  /** The cursor is at the switch n, or in a case of it. */
  ghost predicate InSwitch(b: Builder, n: nat) {
    && Good(b) && 0 < n < |b.a.kind| && b.a.kind[n].Switch?
    && (b.cc == n || (b.a.kind[b.cc].Case? && b.a.parent[b.cc] == n))
  }

  lemma InSwitchSteps(b: Builder, n: nat, value: string)
    requires InSwitch(b, n)
    ensures Good(b.(cc := n)) && Step(b, OpenCase(value)) == Ok(Enter(b.(cc := n), Case(value)))
  {
  }

  lemma CloseSwitchStep(b: Builder, n: nat)
    requires InSwitch(b, n) && b.a.parent[n] != 0
    ensures Step(b, CloseSwitch) == Ok(b.(cc := n))
  {
  }

  lemma {:induction false} CasesBuild(s: Builder, b: Builder, done: seq<Token>, cases: seq<(string, seq<Item>)>)
    requires Good(s) && InSwitch(b, s.cc) && Built(s, b.(cc := s.cc), done)
    requires forall c <- cases :: WellFormed(c.1)
    ensures BuildLines(b, CaseLines(cases)).Ok?
    ensures var b' := BuildLines(b, CaseLines(cases)).value; InSwitch(b', s.cc) && Built(s, b'.(cc := s.cc), done + CaseTokens(cases))
    decreases |cases|
  {
    hide Built, Step, Classify, Wf, Good, InSwitch;
    InSwitchIsGood(b, s.cc);
    if cases == [] {
      assert done + [] == done;
    } else {
      var (value, body) := cases[0];
      assert cases[0] in cases && forall c <- cases[1..] :: c in cases;
      var head, one := ["@case " + value] + Lines(body), [Token(Case(value), Tokens(body))];
      OneCaseBuilds(s, b, done, value, body);
      CasesBuild(s, BuildLines(b, head).value, done + one, cases[1..]);
      BuildInTwo(b, head, CaseLines(cases[1..]));
      assert CaseTokens(cases) == one + CaseTokens(cases[1..]);
      assert (done + one) + CaseTokens(cases[1..]) == done + (one + CaseTokens(cases[1..]));
    }
  }

  lemma InSwitchIsGood(b: Builder, n: nat)
    requires InSwitch(b, n)
    ensures Good(b)
  {
  }

  lemma {:induction false} OneCaseBuilds(s: Builder, b: Builder, done: seq<Token>, value: string, body: seq<Item>)
    requires Good(s) && InSwitch(b, s.cc) && Built(s, b.(cc := s.cc), done) && WellFormed(body)
    ensures BuildLines(b, ["@case " + value] + Lines(body)).Ok?
    ensures var b' := BuildLines(b, ["@case " + value] + Lines(body)).value;
      InSwitch(b', s.cc) && Built(s, b'.(cc := s.cc), done + [Token(Case(value), Tokens(body))])
  {
    hide Built, Step, Classify, Wf;
    var at, one := b.(cc := s.cc), [Token(Case(value), Tokens(body))];
    InSwitchSteps(b, s.cc, value);
    CaseReadsBack(value);
    OpenBuilds(b, "@case " + value, at, Case(value), body);
    var b' := BuildLines(b, ["@case " + value] + Lines(body)).value;
    BuiltInSteps(s, at, b'.(cc := s.cc), done, one);
    KindStays(at, b'.(cc := s.cc), one, s.cc);
  }

  lemma KindStays(b: Builder, b': Builder, ts: seq<Token>, n: nat)
    requires Built(b, b', ts) && n < |b.a.kind|
    ensures n < |b'.a.kind| && b'.a.kind[n] == b.a.kind[n] && n < |b'.a.parent| && n < |b.a.parent| && b'.a.parent[n] == b.a.parent[n]
  {
  }

  /** The lines of a switch add its token under the cursor, with a token for each case, and
      leave the cursor on the switch. */
  lemma {:induction false} SwitchBuilds(b: Builder, key: string, cases: seq<(string, seq<Item>)>)
    requires Good(b) && forall c <- cases :: WellFormed(c.1)
    ensures var lines := ["@switch " + key] + CaseLines(cases) + ["@endswitch"];
      && BuildLines(b, lines).Ok?
      && var b' := BuildLines(b, lines).value;
      b'.cc == |b.a.kind| && Built(b, b'.(cc := b.cc), [Token(Switch(key), CaseTokens(cases))])
  {
    hide Built, Step, Classify, Wf;
    GoodFits(b);
    var s, n := Enter(b, Switch(key)), |b.a.kind|;
    GrowKeepsGood(b, Switch(key));
    SwitchReadsBack(key);
    EndSwitchReadsBack();
    OneLine(b, "@switch " + key);
    SwitchStep(b, key);
    NothingBuilt(s);
    assert InSwitch(s, n) && s.(cc := n) == s;
    CasesBuild(s, s, [], cases);
    assert [] + CaseTokens(cases) == CaseTokens(cases);
    var c := BuildLines(s, CaseLines(cases)).value;
    KindStays(s, c.(cc := n), CaseTokens(cases), n);
    CloseSwitchStep(c, n);
    OneLine(c, "@endswitch");
    BuildInTwo(b, ["@switch " + key], CaseLines(cases));
    BuildInTwo(b, ["@switch " + key] + CaseLines(cases), ["@endswitch"]);
    NestBuilt(b, Switch(key), c.(cc := n), CaseTokens(cases));
  }

  lemma SwitchStep(b: Builder, key: string)
    requires Good(b)
    ensures Step(b, OpenSwitch(key)) == Ok(Enter(b, Switch(key)))
    ensures Enter(b, Switch(key)).a.kind[|b.a.kind|] == Switch(key) && Enter(b, Switch(key)).a.parent[|b.a.kind|] == b.cc != 0
  {
  }

  /** Running a switch evaluates the items of its first case with the key's value. */
  lemma {:induction false} SwitchMeans<Env, Val>(
    ops: Ops<Env, Val>, key: string, v: string, cases: seq<(string, seq<Item>)>, k: nat, last: bool, e: Env, buf: string)
    requires ops.lookup(e, key) == (e, v) && k <= |cases|
    requires (forall j :: 0 <= j < k ==> cases[j].0 != v) && (k < |cases| ==> cases[k].0 == v)
    ensures RunToken(ops, Token(Switch(key), CaseTokens(cases)), last, e, buf) ==
      if k == |cases| then Done(e, buf) else Eval(ops, cases[k].1, e, buf)
  {
    FirstCaseRuns(ops, key, v, CaseTokens(cases), k, e, buf);
    if k < |cases| { TokensMean(ops, cases[k].1, e, buf); }
  }

  /** Exactly which lines throw: a branch or the end of a condition that the cursor is not in,
      and a case or the end of a switch when it is neither on a switch nor in a case of one. */
  lemma WhenLinesThrow(b: Builder, c: Command)
    requires Good(b)
    ensures b.a.parent[b.cc] < |b.a.kind|
    ensures var at, up := b.a.kind[b.cc], b.a.kind[b.a.parent[b.cc]];
      Step(b, c).Err? <==>
        || ((c == Else || c == CloseIf) && !up.Cond?)
        || ((c == CloseSwitch || c.OpenCase?) && !at.Switch? && !(at.Case? && up.Switch?))
  {
    var i := b.cc;
    assert i in b.a.kids[b.a.parent[i]];
    assert forall k <- b.a.kids[0] :: b.a.kind[k] == Nop;
  }
}
