/**
 The objects of the configuration machinery: the visitor with its two stacks, the key path
 that iterates with it, and the database that validates and applies a new configuration.
 */
module Visitors {
  import opened Wrappers
  import Trees
  import opened T = Trees

  /** visitor<value> */
  class Visitor {
    const root: Node
    var current: Node
    var idx: Option<nat>
    var sti: seq<Option<nat>>
    var stk: seq<Node>

    constructor (v: Node)
      ensures State() == Start(v) && Sound(State())
    {
      root, current, idx, sti, stk := v, v, None, [], [];
    }

    ghost function State(): Cursor
      reads this
    {
      Cursor(root, current, idx, sti, stk)
    }

    method Enter(name: string) returns (ok: bool)
      requires Sound(State())
      modifies this
      ensures (State(), ok) == Trees.Enter(old(State()), name) && Sound(State())
    {
      MovesKeepSound(State(), name);
      if name == "" { return false; }
      var i := KidNamed(current.kids, name);
      if i == None { return false; }
      sti := sti + [idx];
      stk := stk + [current];
      idx := None;
      current := current.kids[i.value].node;
      ok := true;
    }

    method First() returns (ok: bool)
      requires Sound(State())
      modifies this
      ensures (State(), ok) == Trees.First(old(State())) && Sound(State())
    {
      MovesKeepSound(State(), "");
      sti := sti + [idx];
      idx := None;
      if current.kids != [] {
        idx := Some(0);
        stk := stk + [current];
        current := current.kids[0].node;
        return true;
      }
      idx := sti[|sti| - 1];
      sti := sti[..|sti| - 1];
      ok := false;
    }

    method Next() returns (ok: bool)
      requires Sound(State())
      modifies this
      ensures (State(), ok) == Trees.Next(old(State())) && (ok || idx == None ==> Sound(State()))
    {
      hide Sound;
      FailedNextLosesItsPlace(State());
      if idx == None { return false; }
      PlaceMeansParent(State());
      ghost var was := stk;
      current := stk[|stk| - 1];
      stk := stk[..|stk| - 1];
      idx := Some(idx.value + 1);
      if idx.value < |current.kids| {
        stk := stk + [current];
        current := current.kids[idx.value].node;
        assert stk == was;
        return true;
      }
      stk := stk + [current];
      idx := Some(idx.value - 1);
      assert stk == was;
      ok := false;
    }

    method Up() returns (ok: bool)
      requires Sound(State())
      modifies this
      ensures (State(), ok) == Trees.Up(old(State())) && Sound(State())
    {
      MovesKeepSound(State(), "");
      AtRootOnlyOnTop(State());
      if current == root { return false; }
      current := stk[|stk| - 1];
      stk := stk[..|stk| - 1];
      idx := sti[|sti| - 1];
      sti := sti[..|sti| - 1];
      ok := true;
    }

    /** root: all levels are left at once. */
    method Root()
      modifies this
      ensures State() == Start(root) && Sound(State())
    {
      idx := None;
      while sti != []
        invariant idx == None
        decreases |sti|
      {
        idx := sti[|sti| - 1];
        sti := sti[..|sti| - 1];
        if idx != None { idx := None; }
      }
      while stk != []
        invariant sti == [] && idx == None
        decreases |stk|
      {
        stk := stk[..|stk| - 1];
      }
      current := root;
    }
  }
}

module ConfigDatabase {
  import opened Wrappers
  import opened Trees
  import opened KeyPaths
  import opened Visitors

  /** One round of the last loop of next. */
  function Redone(path: seq<string>, w: Walk): (r: Option<Walk>)
    requires Sound(w.c) && w.respos < path
    ensures r.Some? ==> Sound(r.value.c) && r.value.respos == path[..|w.respos| + 1]
  {
    var name := path[|w.respos|];
    MovesKeepSound(w.c, name);
    assert w.respos + [name] == path[..|w.respos| + 1];
    if name == STAR then
      match NextN(First(w.c).0, w.cindex + 1)
      case None => None
      case Some(c) => Some(Walk(c, w.respos + [name], w.cindex + 1))
    else Some(Walk(Enter(w.c, name).0, w.respos + [name], w.cindex))
  }

  lemma {:induction false} RefillByRounds(path: seq<string>, w: Walk)
    requires Sound(w.c) && w.respos < path
    ensures Refill(path, w) == match Redone(path, w) case None => None case Some(w') => Refill(path, w')
  {
    MovesKeepSound(w.c, path[|w.respos|]);
  }

  lemma {:induction false} DescendByNames(c: Cursor, names: seq<string>, i: nat)
    requires Sound(c) && i < |names|
    ensures Sound(Step(c, names[i])) && Descend(c, names[i..]) == Descend(Step(c, names[i]), names[i + 1..])
  {
    MovesKeepSound(c, names[i]);
    assert names[i..][1..] == names[i + 1..];
  }

  lemma {:induction false} ExistsByNames(c: Cursor, names: seq<string>, i: nat)
    requires Sound(c) && i < |names|
    ensures Sound(Step(c, names[i]))
    ensures ExistsFrom(names[i..], c) <==>
      (if names[i] == STAR then First(c).1 else Enter(c, names[i]).1) && ExistsFrom(names[i + 1..], Step(c, names[i]))
  {
    MovesKeepSound(c, names[i]);
    assert names[i..][1..] == names[i + 1..];
  }

  /** keypath */
  class KeyPath {
    var names: seq<string>
    var made: bool  // the array was allocated
    var crsr: Visitor?
    var cindex: nat

    constructor (path: seq<string>)
      ensures names == path && made == (path != []) && crsr == null && cindex == 0
    {
      names, made, crsr, cindex := path, path != [], null, 0;
    }

    /** The names added to respos so far, with the cursor, make the walk w. */
    ghost predicate Walks(respos: KeyPath, w: Walk)
      reads this`crsr, this`cindex, respos`names, crsr
    {
      crsr != null && respos != this && w == Walk(crsr.State(), respos.names, cindex) && Sound(w.c)
    }

    method Add(s: string)
      modifies this`names, this`made
      ensures names == old(names) + [s] && made
    {
      names, made := names + [s], true;
    }

    method RemoveLast()
      modifies this`names
      ensures names == if old(names) == [] then [] else old(names[..|names| - 1])
    {
      if names != [] { names := names[..|names| - 1]; }
    }

    /** existsin */
    method ExistsIn(v: Node) returns (found: bool)
      ensures found == Exists(made, names, v)
    {
      if !made { return false; }
      var probe := new Visitor(v);
      var x := 0;
      while x < |names|
        invariant x <= |names| && fresh(probe) && Sound(probe.State())
        invariant ExistsFrom(names[x..], probe.State()) == ExistsFrom(names, Start(v))
      {
        ExistsByNames(probe.State(), names, x);
        var ok;
        if names[x] == STAR { ok := probe.First(); } else { ok := probe.Enter(names[x]); }
        if !ok { return false; }
        x := x + 1;
      }
      found := true;
    }

    /** begin */
    method BeginAt(v: Node, respos: KeyPath)
      requires respos != this
      modifies this`crsr, this`cindex, respos`names, respos`made
      ensures fresh(crsr) && Walks(respos, Begin(names, v))
      ensures respos.made == (old(respos.made) || names != [])
    {
      hide Sound;
      crsr := new Visitor(v);
      respos.names := [];
      cindex := 0;
      var i := 0;
      while i < |names|
        invariant i <= |names| && fresh(crsr) && Sound(crsr.State())
        invariant respos.names == names[..i] && names == old(names) && cindex == 0
        invariant respos.made == (old(respos.made) || i > 0)
        invariant Descend(crsr.State(), names[i..]) == Descend(Start(v), names)
      {
        DescendByNames(crsr.State(), names, i);
        respos.Add(names[i]);
        var ok;
        if names[i] == STAR { ok := crsr.First(); } else { ok := crsr.Enter(names[i]); }
        i := i + 1;
      }
      assert names[i..] == [];
    }

    /** get */
    method Get(respos: KeyPath, ghost w: Walk) returns (v: Node)
      requires Walks(respos, w)
      ensures v == w.c.current
    {
      v := crsr.current;
    }

    /** The first loop of next: back to the last wildcard. */
    method BackUpTo(respos: KeyPath, ghost w: Walk)
      requires Walks(respos, w)
      modifies respos`names, crsr
      ensures Walks(respos, BackUp(w))
    {
      ghost var u := w;
      while respos.names != [] && respos.names[|respos.names| - 1] != STAR
        invariant crsr == old(crsr) && Walks(respos, u) && BackUp(u) == BackUp(w)
        decreases |respos.names|
      {
        MovesKeepSound(u.c, "");
        u := Walk(Up(u.c).0, u.respos[..|u.respos| - 1], u.cindex);
        respos.RemoveLast();
        var ok := crsr.Up();
      }
    }

    /** The inner loop of next. */
    method Advance(n: nat) returns (ok: bool)
      requires crsr != null && Sound(crsr.State())
      modifies crsr
      ensures match NextN(old(crsr.State()), n) case None => !ok case Some(c) => ok && crsr.State() == c
    {
      ghost var c := crsr.State();
      for i := 0 to n
        invariant Sound(crsr.State()) && NextN(crsr.State(), n - i) == NextN(c, n)
      {
        MovesKeepSound(crsr.State(), "");
        ok := crsr.Next();
        if !ok { return; }
      }
      ok := true;
    }

    /** next: false after the last match, and then, if a wildcard was left, without cursor. */
    method ToNext(respos: KeyPath, ghost w: Walk) returns (more: bool)
      requires Walks(respos, w) && w.respos == names
      requires names != [] ==> respos.made
      modifies this`crsr, this`cindex, respos`names, respos`made, crsr
      ensures match NextMatch(names, w) case None => !more case Some(w') => more && crsr == old(crsr) && Walks(respos, w')
      ensures respos.made == old(respos.made)
    {
      BackUpTo(respos, w);
      if respos.names == [] { return false; }
      ghost var p := BackUp(w);
      MovesKeepSound(p.c, "");
      respos.RemoveLast();
      var ok := crsr.Up();
      ghost var u := Walk(Up(p.c).0, p.respos[..|p.respos| - 1], p.cindex);
      more := RefillTo(respos, u);
    }

    /** One round of the last loop of next. */
    method Redo(respos: KeyPath, ghost w: Walk) returns (ok: bool)
      requires Walks(respos, w) && w.respos < names
      requires names != [] ==> respos.made
      modifies this`crsr, this`cindex, respos`names, respos`made, crsr
      ensures match Redone(names, w) case None => !ok case Some(w') => ok && crsr == old(crsr) && Walks(respos, w')
      ensures respos.made == old(respos.made)
    {
      hide Sound;
      var name := names[|respos.names|];
      MovesKeepSound(w.c, name);
      if name == STAR {
        respos.Add(name);
        ok := crsr.First();
        cindex := cindex + 1;
        ok := Advance(cindex);
        if !ok { crsr, cindex := null, 0; }
      } else {
        ok := crsr.Enter(name);
        respos.Add(name);
        ok := true;
      }
    }

    /** The last loop of next. */
    method RefillTo(respos: KeyPath, ghost w: Walk) returns (more: bool)
      requires Walks(respos, w) && w.respos <= names
      requires names != [] ==> respos.made
      modifies this`crsr, this`cindex, respos`names, respos`made, crsr
      ensures match Refill(names, w) case None => !more case Some(w') => more && crsr == old(crsr) && Walks(respos, w')
      ensures respos.made == old(respos.made)
    {
      ghost var u := w;
      more := true;
      while |respos.names| < |names|
        invariant crsr == old(crsr) && names == old(names) && Walks(respos, u)
        invariant u.respos <= names && Refill(names, u) == Refill(names, w) && more && respos.made == old(respos.made)
        decreases |names| - |respos.names|
      {
        RefillByRounds(names, u);
        ghost var next := Redone(names, u);
        hide Redone, Sound;
        more := Redo(respos, u);
        if !more { return; }
        u := next.value;
      }
    }
  }
}

/** What a load tells the application, as functions of the watched paths and the two trees. */
module Transactions {
  import opened Wrappers
  import opened Trees
  import opened KeyPaths

  type Paths = seq<seq<string>>

  datatype Action = IsValid | Create | Change | Remove

  /** A callback: which watcher, and the new and the old node it is given. */
  datatype Call = Call(watcher: nat, action: Action, now: Node, was: Node)

  /** treecmp: children with a name are matched by name, the others by place. Text and
      attributes count for nodes without children only. */
  predicate TreeCmp(a: Node, b: Node)
    decreases a, 2
  {
    if a.kids == [] then AttribCmp(a, b) && a.text == b.text else |a.kids| == |b.kids| && KidsCmp(a.kids, b, 0)
  }

  predicate AttribCmp(a: Node, b: Node)
    decreases a, 0
  {
    a.attrib.Some? ==> b.attrib.Some? && TreeCmp(a.attrib.value, b.attrib.value)
  }

  predicate KidsCmp(kids: seq<Kid>, b: Node, at: nat)
    requires at + |kids| == |b.kids|
    decreases kids, 1
  {
    kids == [] ||
    (var other := if kids[0].name == "" then Some(at) else KidNamed(b.kids, kids[0].name);
     other.Some? && TreeCmp(kids[0].node, b.kids[other.value].node) && KidsCmp(kids[1..], b, at + 1))
  }

  function Checks(i: nat, nodes: seq<Node>): seq<Call> {
    if nodes == [] then [] else [Call(i, IsValid, nodes[0], nodes[0])] + Checks(i, nodes[1..])
  }

  /** The path that is asked about was added to when any watched path was. */
  predicate Made(paths: Paths) {
    exists path <- paths :: path != []
  }

  /** What a node of the new tree calls for. */
  function Arrival(made: bool, i: nat, path: seq<string>, x: Node, db: Node): seq<Call> {
    if !Exists(made, path, db) then [Call(i, Create, x, x)]
    else if TreeCmp(Begin(path, db).c.current, x) then []
    else [Call(i, Change, x, Begin(path, db).c.current)]
  }

  function Arrivals(made: bool, i: nat, path: seq<string>, nodes: seq<Node>, db: Node): seq<Call> {
    if nodes == [] then [] else Arrival(made, i, path, nodes[0], db) + Arrivals(made, i, path, nodes[1..], db)
  }

  /** What a node of the old tree calls for. */
  function Departure(made: bool, i: nat, path: seq<string>, y: Node, ndb: Node): seq<Call> {
    if Exists(made, path, ndb) then [] else [Call(i, Remove, y, y)]
  }

  function Departures(made: bool, i: nat, path: seq<string>, nodes: seq<Node>, ndb: Node): seq<Call> {
    if nodes == [] then [] else Departure(made, i, path, nodes[0], ndb) + Departures(made, i, path, nodes[1..], ndb)
  }

  function Effects(made: bool, i: nat, path: seq<string>, ndb: Node, db: Node): seq<Call> {
    Arrivals(made, i, path, Rounds(path, ndb), db) + Departures(made, i, path, Rounds(path, db), ndb)
  }

  /** The two passes over the watchers from the i-th on. */
  function AllChecks(paths: Paths, i: nat, ndb: Node): seq<Call>
    requires i <= |paths|
    decreases |paths| - i
  {
    if i == |paths| then [] else Checks(i, Rounds(paths[i], ndb)) + AllChecks(paths, i + 1, ndb)
  }

  function AllEffects(paths: Paths, i: nat, ndb: Node, db: Node): seq<Call>
    requires i <= |paths|
    decreases |paths| - i
  {
    if i == |paths| then [] else Effects(Made(paths), i, paths[i], ndb, db) + AllEffects(paths, i + 1, ndb, db)
  }

  /** The application's answer to its k-th callback. */
  predicate Accepts(answers: seq<bool>, k: nat) {
    k < |answers| ==> answers[k]
  }

  /** Asking for the calls of todo one by one, until one is refused: the log, and whether all
      were accepted. */
  function Ask(answers: seq<bool>, calls: seq<Call>, todo: seq<Call>): (seq<Call>, bool)
    decreases |todo|
  {
    if todo == [] then (calls, true)
    else if Accepts(answers, |calls|) then Ask(answers, calls + [todo[0]], todo[1..])
    else (calls + [todo[0]], false)
  }

  lemma {:induction false} AskInTwo(answers: seq<bool>, calls: seq<Call>, a: seq<Call>, b: seq<Call>)
    ensures var (mid, ok) := Ask(answers, calls, a);
      Ask(answers, calls, a + b) == if ok then Ask(answers, mid, b) else (mid, false)
    decreases |a|
  {
    if a == [] {
      assert a + b == b;
    } else {
      assert (a + b)[1..] == a[1..] + b;
      AskInTwo(answers, calls + [a[0]], a[1..], b);
    }
  }

  /** From the log was, the calls of todo were made in order until one was refused. */
  ghost predicate Asked(answers: seq<bool>, was: seq<Call>, todo: seq<Call>, now: seq<Call>, ok: bool) {
    && was <= now <= was + todo
    && (forall k :: |was| <= k < |now| && (ok || k + 1 < |now|) ==> Accepts(answers, k))
    && if ok then now == was + todo else |was| < |now| && !Accepts(answers, |now| - 1)
  }

  lemma {:induction false} AskIsAsked(answers: seq<bool>, calls: seq<Call>, todo: seq<Call>)
    ensures Asked(answers, calls, todo, Ask(answers, calls, todo).0, Ask(answers, calls, todo).1)
    decreases |todo|
  {
    if todo != [] {
      assert calls + todo == (calls + [todo[0]]) + todo[1..];
      if Accepts(answers, |calls|) {
        AskIsAsked(answers, calls + [todo[0]], todo[1..]);
      }
    }
  }

  lemma {:induction false} ChecksByRounds(i: nat, path: seq<string>, w: Walk)
    requires Sound(w.c) && w.respos == path
    ensures Checks(i, RoundsFrom(path, w)) == [Call(i, IsValid, w.c.current, w.c.current)] +
      match NextMatch(path, w) case None => [] case Some(w') => Checks(i, RoundsFrom(path, w'))
  {
    assert Checks(i, []) == [];
    match NextMatch(path, w)
    case None =>
      assert [w.c.current][1..] == [];
    case Some(w') =>
      assert ([w.c.current] + RoundsFrom(path, w'))[1..] == RoundsFrom(path, w');
  }

  lemma {:induction false} AskRound(answers: seq<bool>, calls: seq<Call>, i: nat, path: seq<string>, w: Walk)
    requires Sound(w.c) && w.respos == path
    ensures Ask(answers, calls, Checks(i, RoundsFrom(path, w))) ==
      var now := calls + [Call(i, IsValid, w.c.current, w.c.current)];
      if !Accepts(answers, |calls|) then (now, false)
      else match NextMatch(path, w) case None => (now, true) case Some(w') => Ask(answers, now, Checks(i, RoundsFrom(path, w')))
  {
    ChecksByRounds(i, path, w);
  }

  lemma {:induction false} RoundsGoOn(path: seq<string>, w: Walk)
    requires Sound(w.c) && w.respos == path
    ensures RoundsFrom(path, w)[0] == w.c.current
    ensures RoundsFrom(path, w)[1..] == match NextMatch(path, w) case None => [] case Some(w') => RoundsFrom(path, w')
  {
  }

  lemma {:induction false} ArrivalsOfFirst(calls: seq<Call>, made: bool, i: nat, path: seq<string>, nodes: seq<Node>, db: Node)
    requires nodes != []
    ensures calls + Arrivals(made, i, path, nodes, db) ==
      (calls + Arrival(made, i, path, nodes[0], db)) + Arrivals(made, i, path, nodes[1..], db)
    ensures calls + Arrivals(made, i, path, [], db) == calls
  {
  }

  lemma {:induction false} ArrivalRound(calls: seq<Call>, made: bool, i: nat, path: seq<string>, w: Walk, db: Node)
    requires Sound(w.c) && w.respos == path
    ensures calls + Arrivals(made, i, path, RoundsFrom(path, w), db) ==
      var now := calls + Arrival(made, i, path, w.c.current, db);
      match NextMatch(path, w) case None => now case Some(w') => now + Arrivals(made, i, path, RoundsFrom(path, w'), db)
  {
    hide NextMatch, Arrival, Sound;
    RoundsGoOn(path, w);
    ArrivalsOfFirst(calls, made, i, path, RoundsFrom(path, w), db);
    ArrivalsOfFirst(calls + Arrival(made, i, path, w.c.current, db), made, i, path, RoundsFrom(path, w), db);
  }

  lemma {:induction false} DeparturesOfFirst(calls: seq<Call>, made: bool, i: nat, path: seq<string>, nodes: seq<Node>, ndb: Node)
    requires nodes != []
    ensures calls + Departures(made, i, path, nodes, ndb) ==
      (calls + Departure(made, i, path, nodes[0], ndb)) + Departures(made, i, path, nodes[1..], ndb)
    ensures calls + Departures(made, i, path, [], ndb) == calls
  {
  }

  lemma {:induction false} DepartureRound(calls: seq<Call>, made: bool, i: nat, path: seq<string>, w: Walk, ndb: Node)
    requires Sound(w.c) && w.respos == path
    ensures calls + Departures(made, i, path, RoundsFrom(path, w), ndb) ==
      var now := calls + Departure(made, i, path, w.c.current, ndb);
      match NextMatch(path, w) case None => now case Some(w') => now + Departures(made, i, path, RoundsFrom(path, w'), ndb)
  {
    hide NextMatch, Departure, Sound;
    RoundsGoOn(path, w);
    DeparturesOfFirst(calls, made, i, path, RoundsFrom(path, w), ndb);
    DeparturesOfFirst(calls + Departure(made, i, path, w.c.current, ndb), made, i, path, RoundsFrom(path, w), ndb);
  }

  /** How the first pass ends, from the i-th watcher on. */
  ghost function StillToAsk(answers: seq<bool>, calls: seq<Call>, paths: Paths, i: nat, ndb: Node): (seq<Call>, bool)
    requires i <= |paths|
  {
    Ask(answers, calls, AllChecks(paths, i, ndb))
  }

  /** How it goes for the i-th watcher. */
  ghost function AskWatcher(answers: seq<bool>, calls: seq<Call>, paths: Paths, i: nat, ndb: Node): (seq<Call>, bool)
    requires i < |paths|
  {
    Ask(answers, calls, Checks(i, Rounds(paths[i], ndb)))
  }

  lemma AskNextWatcher(answers: seq<bool>, calls: seq<Call>, paths: Paths, i: nat, ndb: Node)
    requires i < |paths|
    ensures var (mid, ok) := AskWatcher(answers, calls, paths, i, ndb);
      StillToAsk(answers, calls, paths, i, ndb) == if ok then StillToAsk(answers, mid, paths, i + 1, ndb) else (mid, false)
  {
    AskInTwo(answers, calls, Checks(i, Rounds(paths[i], ndb)), AllChecks(paths, i + 1, ndb));
  }

  lemma {:induction false} AskStarts(answers: seq<bool>, calls: seq<Call>, paths: Paths, ndb: Node)
    ensures StillToAsk(answers, calls, paths, 0, ndb) == Ask(answers, calls, AllChecks(paths, 0, ndb))
  {
  }

  lemma AskEnds(answers: seq<bool>, calls: seq<Call>, paths: Paths, ndb: Node)
    ensures StillToAsk(answers, calls, paths, |paths|, ndb) == (calls, true)
  {
  }

  /** How the second pass ends. */
  ghost function StillToTell(calls: seq<Call>, paths: Paths, i: nat, ndb: Node, db: Node): seq<Call>
    requires i <= |paths|
  {
    calls + AllEffects(paths, i, ndb, db)
  }

  lemma {:induction false} TellStarts(calls: seq<Call>, paths: Paths, ndb: Node, db: Node)
    ensures StillToTell(calls, paths, 0, ndb, db) == calls + AllEffects(paths, 0, ndb, db)
  {
  }

  lemma TellEnds(calls: seq<Call>, paths: Paths, ndb: Node, db: Node)
    ensures StillToTell(calls, paths, |paths|, ndb, db) == calls
  {
  }

  lemma {:induction false} TwoHalves(calls: seq<Call>, made: bool, i: nat, path: seq<string>, ndb: Node, db: Node)
    ensures calls + Effects(made, i, path, ndb, db) ==
      calls + Arrivals(made, i, path, Rounds(path, ndb), db) + Departures(made, i, path, Rounds(path, db), ndb)
  {
  }

  lemma TellNextWatcher(calls: seq<Call>, paths: Paths, i: nat, ndb: Node, db: Node)
    requires i < |paths|
    ensures StillToTell(calls, paths, i, ndb, db) == StillToTell(calls + Effects(Made(paths), i, paths[i], ndb, db), paths, i + 1, ndb, db)
  {
    var e, rest := Effects(Made(paths), i, paths[i], ndb, db), AllEffects(paths, i + 1, ndb, db);
    assert calls + (e + rest) == calls + e + rest;
  }

  /** The tree in force and everything the application was told. */
  datatype Progress = Progress(db: Node, calls: seq<Call>)

  /** One load of a file that parsed to a tree, or did not, and did or did not pass the
      validator. */
  ghost predicate Loaded(paths: Paths, answers: seq<bool>, s: Progress, parsed: Option<Node>, checked: bool,
      t: Progress, ok: bool)
  {
    if parsed == None || !checked then t == s && !ok
    else
      var ndb := parsed.value;
      var checks := AllChecks(paths, 0, ndb);
      if ok
      then
        && t == Progress(ndb, s.calls + checks + AllEffects(paths, 0, ndb, s.db))
        && Asked(answers, s.calls, checks, s.calls + checks, true)
      else t.db == s.db && Asked(answers, s.calls, checks, t.calls, false)
  }

  /** How a load goes, from how the asking goes. */
  lemma {:induction false} LoadedIs(paths: Paths, answers: seq<bool>, s: Progress, parsed: Option<Node>, checked: bool)
    ensures parsed == None || !checked ==> Loaded(paths, answers, s, parsed, checked, s, false)
    ensures parsed.Some? && checked ==>
      var (calls, ok) := Ask(answers, s.calls, AllChecks(paths, 0, parsed.value));
      var t := if ok then Progress(parsed.value, calls + AllEffects(paths, 0, parsed.value, s.db)) else Progress(s.db, calls);
      Loaded(paths, answers, s, parsed, checked, t, ok)
  {
    if parsed.Some? && checked { AskIsAsked(answers, s.calls, AllChecks(paths, 0, parsed.value)); }
  }

  /** At place b of the log the checks start, all were accepted, and the effects follow. */
  ghost predicate Stands(answers: seq<bool>, calls: seq<Call>, b: nat, checks: seq<Call>, effects: seq<Call>) {
    && b + |checks| + |effects| <= |calls|
    && calls[b..b + |checks|] == checks
    && calls[b + |checks|..b + |checks| + |effects|] == effects
    && forall k :: b <= k < b + |checks| ==> Accepts(answers, k)
  }

  ghost predicate Committed(paths: Paths, answers: seq<bool>, calls: seq<Call>, b: nat, ndb: Node, db: Node) {
    Stands(answers, calls, b, AllChecks(paths, 0, ndb), AllEffects(paths, 0, ndb, db))
  }

  datatype Input = Input(parsed: Option<Node>, checked: bool)

  /** A run: the states between the loads. */
  ghost predicate IsRun(paths: Paths, answers: seq<bool>, inputs: seq<Input>, states: seq<Progress>, oks: seq<bool>) {
    && |states| == |inputs| + 1 == |oks| + 1
    && forall j :: 0 <= j < |inputs| ==>
      Loaded(paths, answers, states[j], inputs[j].parsed, inputs[j].checked, states[j + 1], oks[j])
  }

  lemma {:induction false} ChecksAreChecks(i: nat, nodes: seq<Node>, k: nat)
    requires k < |Checks(i, nodes)|
    ensures |Checks(i, nodes)| == |nodes| && Checks(i, nodes)[k] == Call(i, IsValid, nodes[k], nodes[k])
  {
    if k > 0 { ChecksAreChecks(i, nodes[1..], k - 1); }
    else if |nodes| > 1 { ChecksAreChecks(i, nodes[1..], 0); }
  }

  lemma {:induction false} AllChecksAreChecks(paths: Paths, i: nat, ndb: Node, k: nat)
    requires i <= |paths| && k < |AllChecks(paths, i, ndb)|
    ensures AllChecks(paths, i, ndb)[k].action == IsValid
    decreases |paths| - i
  {
    var first := Checks(i, Rounds(paths[i], ndb));
    if k < |first| {
      ChecksAreChecks(i, Rounds(paths[i], ndb), k);
    } else {
      AllChecksAreChecks(paths, i + 1, ndb, k - |first|);
    }
  }

  lemma {:induction false} ChecksHave(i: nat, nodes: seq<Node>, c: Call)
    ensures c in Checks(i, nodes) <==> c.now in nodes && c == Call(i, IsValid, c.now, c.now)
  {
    if nodes != [] {
      ChecksHave(i, nodes[1..], c);
      assert nodes == [nodes[0]] + nodes[1..];
    }
  }

  /** What the first pass asks: for every watcher, whether each match of its path is valid, and
      nothing else. */
  lemma {:induction false} AllIsChecked(paths: Paths, i: nat, ndb: Node, c: Call)
    requires i <= |paths|
    ensures c in AllChecks(paths, i, ndb) <==>
      i <= c.watcher < |paths| && c.now in Rounds(paths[c.watcher], ndb) && c == Call(c.watcher, IsValid, c.now, c.now)
    decreases |paths| - i
  {
    hide Rounds;
    if i < |paths| {
      var first, rest := Checks(i, Rounds(paths[i], ndb)), AllChecks(paths, i + 1, ndb);
      ChecksHave(i, Rounds(paths[i], ndb), c);
      AllIsChecked(paths, i + 1, ndb, c);
      assert c in first + rest <==> c in first || c in rest;
    }
  }

  lemma {:induction false} ChangesHave(i: nat, nodes: seq<Node>, was: Node, c: Call)
    ensures c in Changes(i, nodes, was) ==> c.watcher == i
  {
    if nodes != [] { ChangesHave(i, nodes[1..], was, c); }
  }

  lemma EffectsHave(made: bool, i: nat, path: seq<string>, ndb: Node, db: Node, c: Call)
    ensures c in Effects(made, i, path, ndb, db) ==> c.watcher == i
  {
    EffectsAre(made, i, path, ndb, db);
    ChangesHave(i, Rounds(path, ndb), Rounds(path, db)[0], c);
  }

  /** What the second pass calls: for every watcher the effects on its path, and nothing else. */
  lemma {:induction false} AllEffectsAre(paths: Paths, i: nat, ndb: Node, db: Node, c: Call)
    requires i <= |paths|
    ensures c in AllEffects(paths, i, ndb, db) <==>
      i <= c.watcher < |paths| && c in Effects(Made(paths), c.watcher, paths[c.watcher], ndb, db)
    decreases |paths| - i
  {
    hide Effects, Made;
    if i < |paths| {
      var first, rest := Effects(Made(paths), i, paths[i], ndb, db), AllEffects(paths, i + 1, ndb, db);
      EffectsHave(Made(paths), i, paths[i], ndb, db, c);
      AllEffectsAre(paths, i + 1, ndb, db, c);
      assert c in first + rest <==> c in first || c in rest;
    }
  }

  lemma LoadOnlyAdds(paths: Paths, answers: seq<bool>, s: Progress, x: Input, t: Progress, ok: bool)
    requires Loaded(paths, answers, s, x.parsed, x.checked, t, ok)
    ensures s.calls <= t.calls
  {
  }

  /** A load that succeeds commits, one that fails changes nothing but the log. */
  lemma LoadCommits(paths: Paths, answers: seq<bool>, s: Progress, x: Input, t: Progress, ok: bool)
    requires Loaded(paths, answers, s, x.parsed, x.checked, t, ok)
    ensures ok ==> x.parsed.Some? && t.db == x.parsed.value && Committed(paths, answers, t.calls, |s.calls|, t.db, s.db)
    ensures !ok ==> t.db == s.db
  {
  }

  /** A load that fires anything but checks is one that was accepted throughout. */
  lemma {:induction false} EffectsMeanCommit(paths: Paths, answers: seq<bool>, s: Progress, x: Input, t: Progress, ok: bool, k: nat)
    requires Loaded(paths, answers, s, x.parsed, x.checked, t, ok)
    requires |s.calls| <= k < |t.calls| && t.calls[k].action != IsValid
    ensures ok
    ensures var start := |s.calls| + |AllChecks(paths, 0, t.db)|; start <= k < start + |AllEffects(paths, 0, t.db, s.db)|
  {
    var checks := AllChecks(paths, 0, x.parsed.value);
    if k < |s.calls| + |checks| {
      assert t.calls[k] == (s.calls + checks)[k];
      AllChecksAreChecks(paths, 0, x.parsed.value, k - |s.calls|);
      assert false;
    }
  }

  lemma SliceOfPrefix(calls: seq<Call>, more: seq<Call>, i: nat, j: nat)
    requires calls <= more && i <= j <= |calls|
    ensures more[i..j] == calls[i..j]
  {
    assert more[..|calls|] == calls;
    assert more[i..j] == more[..|calls|][i..j];
  }

  lemma StandsLast(answers: seq<bool>, calls: seq<Call>, b: nat, checks: seq<Call>, effects: seq<Call>, more: seq<Call>)
    requires Stands(answers, calls, b, checks, effects) && calls <= more
    ensures Stands(answers, more, b, checks, effects)
  {
    hide Accepts;
    var n, m := |checks|, |effects|;
    SliceOfPrefix(calls, more, b, b + n);
    SliceOfPrefix(calls, more, b + n, b + n + m);
  }

  lemma CommitmentsLast(paths: Paths, answers: seq<bool>, calls: seq<Call>, b: nat, ndb: Node, db: Node, more: seq<Call>)
    requires Committed(paths, answers, calls, b, ndb, db) && calls <= more
    ensures Committed(paths, answers, more, b, ndb, db)
  {
    hide Stands;
    StandsLast(answers, calls, b, AllChecks(paths, 0, ndb), AllEffects(paths, 0, ndb, db), more);
  }

  /** The tree in force is the first one, or one that a load had accepted throughout. */
  lemma {:induction false} InForceMeansAccepted(paths: Paths, answers: seq<bool>, inputs: seq<Input>,
      states: seq<Progress>, oks: seq<bool>, n: nat)
    requires IsRun(paths, answers, inputs, states, oks) && n <= |inputs|
    ensures states[0].calls <= states[n].calls
    ensures states[n].db == states[0].db || exists b: nat, was :: Committed(paths, answers, states[n].calls, b, states[n].db, was)
    decreases n
  {
    if n > 0 {
      var s, t, x := states[n - 1], states[n], inputs[n - 1];
      InForceMeansAccepted(paths, answers, inputs, states, oks, n - 1);
      LoadOnlyAdds(paths, answers, s, x, t, oks[n - 1]);
      LoadCommits(paths, answers, s, x, t, oks[n - 1]);
      if !oks[n - 1] && s.db != states[0].db {
        var b: nat, was :| Committed(paths, answers, s.calls, b, s.db, was);
        CommitmentsLast(paths, answers, s.calls, b, s.db, was, t.calls);
      }
    }
  }

  /** However many loads were tried: every create, change and remove in the log follows the
      acceptance of every match of every watcher, in the load it belongs to. */
  lemma {:induction false} NoEffectBeforeAcceptance(paths: Paths, answers: seq<bool>, inputs: seq<Input>,
      states: seq<Progress>, oks: seq<bool>, n: nat, k: nat) returns (b: nat, ndb: Node, db: Node)
    requires IsRun(paths, answers, inputs, states, oks) && n <= |inputs|
    requires |states[0].calls| <= k < |states[n].calls| && states[n].calls[k].action != IsValid
    ensures Committed(paths, answers, states[n].calls, b, ndb, db)
    ensures b + |AllChecks(paths, 0, ndb)| <= k < b + |AllChecks(paths, 0, ndb)| + |AllEffects(paths, 0, ndb, db)|
    decreases n
  {
    var s, t, x := states[n - 1], states[n], inputs[n - 1];
    LoadOnlyAdds(paths, answers, s, x, t, oks[n - 1]);
    if k < |s.calls| {
      b, ndb, db := NoEffectBeforeAcceptance(paths, answers, inputs, states, oks, n - 1, k);
      CommitmentsLast(paths, answers, s.calls, b, ndb, db, t.calls);
    } else {
      EffectsMeanCommit(paths, answers, s, x, t, oks[n - 1], k);
      LoadCommits(paths, answers, s, x, t, oks[n - 1]);
      b, ndb, db := |s.calls|, t.db, s.db;
    }
  }

  lemma MadeSoFar(paths: Paths)
    ensures !Made(paths[..0]) && paths[..|paths|] == paths
  {
  }

  lemma MadeOneMore(paths: Paths, i: nat)
    requires i < |paths|
    ensures Made(paths[..i + 1]) <==> Made(paths[..i]) || paths[i] != []
  {
    assert paths[..i + 1] == paths[..i] + [paths[i]];
    if Made(paths[..i]) {
      var path :| path in paths[..i] && path != [];
      assert path in paths[..i + 1];
    }
    assert paths[i] in paths[..i + 1];
  }

  /** The nodes that differ from was, each called as a change of it. */
  function Changes(i: nat, nodes: seq<Node>, was: Node): seq<Call> {
    if nodes == [] then []
    else (if TreeCmp(was, nodes[0]) then [] else [Call(i, Change, nodes[0], was)]) + Changes(i, nodes[1..], was)
  }

  function Each(i: nat, action: Action, nodes: seq<Node>): (r: seq<Call>)
    ensures |r| == |nodes| && forall k :: 0 <= k < |r| ==> r[k] == Call(i, action, nodes[k], nodes[k])
  {
    seq(|nodes|, k requires 0 <= k < |nodes| => Call(i, action, nodes[k], nodes[k]))
  }

  lemma {:induction false} ArrivalsAre(made: bool, i: nat, path: seq<string>, nodes: seq<Node>, db: Node)
    ensures Arrivals(made, i, path, nodes, db) ==
      if Exists(made, path, db) then Changes(i, nodes, Rounds(path, db)[0]) else Each(i, Create, nodes)
  {
    if nodes != [] {
      ArrivalsAre(made, i, path, nodes[1..], db);
      assert Each(i, Create, nodes) == [Call(i, Create, nodes[0], nodes[0])] + Each(i, Create, nodes[1..]);
    }
  }

  lemma {:induction false} DeparturesAre(made: bool, i: nat, path: seq<string>, nodes: seq<Node>, ndb: Node)
    ensures Departures(made, i, path, nodes, ndb) == if Exists(made, path, ndb) then [] else Each(i, Remove, nodes)
  {
    if nodes != [] {
      DeparturesAre(made, i, path, nodes[1..], ndb);
      assert Each(i, Remove, nodes) == [Call(i, Remove, nodes[0], nodes[0])] + Each(i, Remove, nodes[1..]);
    }
  }

  /** What the watcher of any path is told. Whatever the path matches now is compared with the
      first match of before only, or all of it is created; what it matched before is removed
      as a whole or not at all. */
  lemma {:induction false} EffectsAre(made: bool, i: nat, path: seq<string>, ndb: Node, db: Node)
    ensures Effects(made, i, path, ndb, db) ==
      (if Exists(made, path, db) then Changes(i, Rounds(path, ndb), Rounds(path, db)[0]) else Each(i, Create, Rounds(path, ndb)))
      + (if Exists(made, path, ndb) then [] else Each(i, Remove, Rounds(path, db)))
  {
    ArrivalsAre(made, i, path, Rounds(path, ndb), db);
    DeparturesAre(made, i, path, Rounds(path, db), ndb);
  }

  lemma {:induction false} ChangesAre(i: nat, nodes: seq<Node>, was: Node, c: Call)
    ensures c in Changes(i, nodes, was) <==> c.now in nodes && c == Call(i, Change, c.now, was) && !TreeCmp(was, c.now)
  {
    if nodes != [] {
      ChangesAre(i, nodes[1..], was, c);
      assert nodes == [nodes[0]] + nodes[1..];
    }
  }

  /** Where every child has the rest of a wildcard path, in the old tree and in the new one, its
      watcher is never told of a creation or a removal, however many children came and went: it
      is told, as a change of the first old match, of every new match that differs from that. */
  lemma {:induction false} WildcardWatcherIsTold(i: nat, pre: seq<string>, post: seq<string>, ndb: Node, db: Node, c: Call)
    requires Regular(pre, post, ndb) && Regular(pre, post, db)
    ensures var was, kids := Resolve(Resolve(db, pre).value.kids[0].node, post), Resolve(ndb, pre).value.kids;
      was.Some? &&
      (c in Effects(true, i, pre + [STAR] + post, ndb, db) <==>
        && (exists k :: 0 <= k < |kids| && Resolve(kids[k].node, post) == Some(c.now))
        && c == Call(i, Change, c.now, was.value) && !TreeCmp(was.value, c.now))
  {
    hide Regular;
    var path := pre + [STAR] + post;
    RegularHasKids(pre, post, ndb);
    RegularHasKids(pre, post, db);
    var kids, nodes := Resolve(ndb, pre).value.kids, Rounds(path, ndb);
    WildcardVisitsEachMatch(pre, post, db, 0);
    EffectsAre(true, i, path, ndb, db);
    ChangesAre(i, nodes, Rounds(path, db)[0], c);
    forall k | 0 <= k < |kids| ensures |nodes| == |kids| && Some(nodes[k]) == Resolve(kids[k].node, post) {
      WildcardVisitsEachMatch(pre, post, ndb, k);
    }
    if c.now in nodes {
      var k :| 0 <= k < |nodes| && nodes[k] == c.now;
      assert Resolve(kids[k].node, post) == Some(c.now);
    }
  }

  /** existsin looks at the first child of the wildcard's node only. */
  lemma {:induction false} RegularHasKids(pre: seq<string>, post: seq<string>, v: Node)
    requires Regular(pre, post, v)
    ensures Resolve(v, pre).Some? && Resolve(v, pre).value.kids != []
    ensures Exists(true, pre + [STAR] + post, v)
  {
    assert Resolve(v, pre).value.kids[0] in Resolve(v, pre).value.kids;
    var path := pre + [STAR] + post;
    FirstRound(pre, post, v);
    DepthAtKid(pre, post, v, 0);
    DepthIsPresence(Start(v), path);
  }

  lemma {:induction false} NoChanges(i: nat, nodes: seq<Node>, was: Node)
    ensures Changes(i, nodes, was) == [] <==> forall x <- nodes :: TreeCmp(was, x)
  {
    if nodes != [] {
      NoChanges(i, nodes[1..], was);
      assert nodes[0] in nodes && forall x :: x in nodes <==> x == nodes[0] || x in nodes[1..];
    }
  }

  /** Loading the tree already in force tells a watcher nothing exactly when its path is there
      and all that it matches is equal to the first match. */
  lemma ReloadIsQuiet(i: nat, made: bool, path: seq<string>, db: Node)
    ensures Effects(made, i, path, db, db) == [] <==>
      Exists(made, path, db) && forall x <- Rounds(path, db) :: TreeCmp(Rounds(path, db)[0], x)
  {
    EffectsAre(made, i, path, db, db);
    NoChanges(i, Rounds(path, db), Rounds(path, db)[0]);
    assert |Each(i, Create, Rounds(path, db))| > 0;
  }

  /** The effects on a watched path without wildcard. When the path is in neither tree the
      application is told of a creation and of a removal. */
  lemma {:induction false} PlainEffects(i: nat, path: seq<string>, ndb: Node, db: Node)
    requires STAR !in path
    ensures var now, was := Resolve(ndb, path), Resolve(db, path);
      var x, y := Begin(path, ndb).c.current, Begin(path, db).c.current;
      && (now.Some? ==> x == now.value) && (was.Some? ==> y == was.value)
      && Effects(true, i, path, ndb, db) ==
        if was.Some? && now.Some? then (if TreeCmp(y, x) then [] else [Call(i, Change, x, y)])
        else if was.Some? then (if TreeCmp(y, x) then [] else [Call(i, Change, x, y)]) + [Call(i, Remove, y, y)]
        else if now.Some? then [Call(i, Create, x, x)]
        else [Call(i, Create, x, x), Call(i, Remove, y, y)]
  {
    PlainPathIsVisitedOnce(path, ndb);
    PlainPathIsVisitedOnce(path, db);
    var x, y := Begin(path, ndb).c.current, Begin(path, db).c.current;
    assert Arrivals(true, i, path, [x], db) == Arrival(true, i, path, x, db) by {
      assert [x][1..] == [];
    }
    assert Departures(true, i, path, [y], ndb) == Departure(true, i, path, y, ndb) by {
      assert [y][1..] == [];
    }
  }

  /** When only the root is watched, by empty paths, it is not found in either tree. */
  lemma OnlyRootWatched(paths: Paths, i: nat, ndb: Node, db: Node)
    requires !Made(paths) && i < |paths|
    ensures Effects(Made(paths), i, paths[i], ndb, db) == [Call(i, Create, ndb, ndb), Call(i, Remove, db, db)]
  {
    assert paths[i] in paths;
    PlainPathIsVisitedOnce([], ndb);
    PlainPathIsVisitedOnce([], db);
    EffectsAre(false, i, [], ndb, db);
  }

  /** No two children of any node share a name. */
  ghost predicate Distinct(v: Node)
    decreases v, 0
  {
    && (forall i, j :: 0 <= i < j < |v.kids| && v.kids[i].name != "" ==> v.kids[i].name != v.kids[j].name)
    && (v.attrib.Some? ==> Distinct(v.attrib.value))
    && forall k <- v.kids :: Distinct(k.node)
  }

  lemma {:induction false} SameIsSame(v: Node)
    requires Distinct(v)
    ensures TreeCmp(v, v)
    decreases v, 1
  {
    if v.kids != [] {
      assert v.kids[0..] == v.kids;
      SameKids(v, 0);
    } else if v.attrib.Some? {
      SameIsSame(v.attrib.value);
    }
  }

  lemma {:induction false} SameKids(v: Node, i: nat)
    requires Distinct(v) && i <= |v.kids|
    ensures KidsCmp(v.kids[i..], v, i)
    decreases v, 0, |v.kids| - i
  {
    if i < |v.kids| {
      var kid := v.kids[i];
      assert kid in v.kids;
      var at := KidNamed(v.kids, kid.name);
      assert at.Some?;
      SameIsSame(kid.node);
      SameKids(v, i + 1);
      assert v.kids[i..][1..] == v.kids[i + 1..];
    }
  }

  lemma {:induction false} DistinctBelow(v: Node, path: seq<string>)
    requires Distinct(v) && Resolve(v, path).Some?
    ensures Distinct(Resolve(v, path).value)
    decreases |path|
  {
    if path != [] {
      var kid := v.kids[KidNamed(v.kids, path[0]).value];
      assert kid in v.kids;
      DistinctBelow(kid.node, path[1..]);
    }
  }

  /** Loading the tree already in force tells the watchers of plain paths in it nothing. */
  lemma {:induction false} PlainReloadIsQuiet(i: nat, path: seq<string>, db: Node)
    requires STAR !in path && Distinct(db) && Resolve(db, path).Some?
    ensures Effects(true, i, path, db, db) == []
  {
    PlainEffects(i, path, db, db);
    DistinctBelow(db, path);
    SameIsSame(Resolve(db, path).value);
  }
}

/** configdb */
module Loading {
  import opened Wrappers
  import opened Trees
  import opened KeyPaths
  import opened ConfigDatabase
  import opened Transactions

  /** The application object: its answers are arbitrary, its calls are recorded. */
  class Application {
    const answers: seq<bool>
    var calls: seq<Call>

    constructor (answers: seq<bool>)
      ensures this.answers == answers && calls == []
    {
      this.answers, calls := answers, [];
    }

    method Perform(c: Call) returns (ok: bool)
      modifies this`calls
      ensures calls == old(calls) + [c] && ok == Accepts(answers, |old(calls)|)
    {
      ok := if |calls| < |answers| then answers[|calls|] else true;
      calls := calls + [c];
    }
  }

  class ConfigDb {
    const app: Application
    var watchers: seq<KeyPath>
    var db: Node
    var ndb: Node

    constructor (app: Application)
      ensures this.app == app && watchers == [] && db == ndb == Node("", None, [])
    {
      this.app := app;
      watchers, db, ndb := [], Node("", None, []), Node("", None, []);
    }

    /** The paths watched, in the order they were added. */
    ghost predicate Watches(paths: Paths)
      reads this`watchers, watchers
    {
      |paths| == |watchers| && forall i :: 0 <= i < |paths| ==> watchers[i].names == paths[i]
    }

    ghost function Progress(): Progress
      reads this`db, app`calls
    {
      Transactions.Progress(db, app.calls)
    }

    method AddWatcher(kp: KeyPath, ghost paths: Paths)
      requires Watches(paths)
      modifies this`watchers
      ensures Watches(paths + [kp.names]) && watchers[..|watchers| - 1] == old(watchers) && fresh(watchers[|watchers| - 1])
    {
      var copy := new KeyPath(kp.names);
      watchers := watchers + [copy];
    }

    /** The matches of one watcher are put to the application, until it refuses one. */
    method Validate(i: nat, path: KeyPath, p: KeyPath) returns (ok: bool)
      requires p != path
      modifies path`crsr, path`cindex, p`names, p`made, app`calls
      ensures p.made == (old(p.made) || path.names != [])
      ensures (app.calls, ok) == Ask(app.answers, old(app.calls), Checks(i, Rounds(path.names, ndb)))
    {
      ghost var names := path.names;
      ghost var end := Ask(app.answers, app.calls, Checks(i, Rounds(names, ndb)));
      path.BeginAt(ndb, p);
      ghost var w := Begin(names, ndb);
      var more := true;
      hide Sound;
      while more
        invariant path.names == names && p.made == (old(p.made) || names != []) && (more ==> fresh(path.crsr))
        invariant more ==> Sound(w.c) && path.Walks(p, w) && w.respos == names && w.cindex <= Size(w.c.root)
        invariant end == if more then Ask(app.answers, app.calls, Checks(i, RoundsFrom(names, w))) else (app.calls, true)
        decreases if more then 1 + Size(w.c.root) - w.cindex else 0
      {
        hide KeyPath.Walks, NextMatch;
        var x := path.Get(p, w);
        AskRound(app.answers, app.calls, i, names, w);
        ghost var next := NextMatch(names, w);
        ok := app.Perform(Call(i, IsValid, x, x));
        if !ok { return; }
        more := path.ToNext(p, w);
        if more { w := next.value; }
      }
      ok := true;
    }

    /** One match in the new tree: p is where it was found. */
    method Arrive(i: nat, p: KeyPath, pp: KeyPath, x: Node)
      requires p != pp
      modifies p`crsr, p`cindex, pp`names, pp`made, app`calls
      ensures app.calls == old(app.calls) + Arrival(p.made, i, p.names, x, db)
    {
      var there := p.ExistsIn(db);
      if there {
        p.BeginAt(db, pp);
        var was := p.Get(pp, Begin(p.names, db));
        if !TreeCmp(was, x) {
          var _ := app.Perform(Call(i, Change, x, was));
        }
      } else {
        var _ := app.Perform(Call(i, Create, x, x));
      }
    }

    /** One match in the old tree. */
    method Depart(i: nat, p: KeyPath, y: Node)
      modifies app`calls
      ensures app.calls == old(app.calls) + Departure(p.made, i, p.names, y, ndb)
    {
      var there := p.ExistsIn(ndb);
      if !there {
        var _ := app.Perform(Call(i, Remove, y, y));
      }
    }

    method ApplyNew(i: nat, path: KeyPath, p: KeyPath, pp: KeyPath)
      requires p != path && pp != path && p != pp && (path.names != [] ==> p.made)
      modifies path`crsr, path`cindex, p, pp`names, pp`made, app`calls
      ensures p.made == old(p.made)
      ensures app.calls == old(app.calls) + Arrivals(p.made, i, path.names, Rounds(path.names, ndb), db)
    {
      ghost var names := path.names;
      hide Sound, Arrival, KeyPath.Walks, NextMatch;
      ghost var end := app.calls + Arrivals(p.made, i, names, Rounds(names, ndb), db);
      path.BeginAt(ndb, p);
      ghost var w := Begin(names, ndb);
      var more := true;
      while more
        invariant path.names == names && p.made == old(p.made) && (more ==> fresh(path.crsr) && Sound(w.c) && path.Walks(p, w))
        invariant more ==> w.respos == names && w.cindex <= Size(w.c.root)
        invariant end == if more then app.calls + Arrivals(p.made, i, names, RoundsFrom(names, w), db) else app.calls
        decreases if more then 1 + Size(w.c.root) - w.cindex else 0
      {
        var x := path.Get(p, w);
        ArrivalRound(app.calls, p.made, i, names, w, db);
        ghost var next := NextMatch(names, w);
        Arrive(i, p, pp, x);
        more := path.ToNext(p, w);
        if more { w := next.value; }
      }
    }

    method ApplyGone(i: nat, path: KeyPath, p: KeyPath)
      requires p != path && (path.names != [] ==> p.made)
      modifies path`crsr, path`cindex, p`names, p`made, app`calls
      ensures p.made == old(p.made)
      ensures app.calls == old(app.calls) + Departures(p.made, i, path.names, Rounds(path.names, db), ndb)
    {
      ghost var names := path.names;
      hide Sound, Departure, KeyPath.Walks, NextMatch;
      ghost var end := app.calls + Departures(p.made, i, names, Rounds(names, db), ndb);
      path.BeginAt(db, p);
      ghost var w := Begin(names, db);
      var more := true;
      while more
        invariant path.names == names && p.made == old(p.made) && (more ==> fresh(path.crsr) && Sound(w.c) && path.Walks(p, w))
        invariant more ==> w.respos == names && w.cindex <= Size(w.c.root)
        invariant end == if more then app.calls + Departures(p.made, i, names, RoundsFrom(names, w), ndb) else app.calls
        decreases if more then 1 + Size(w.c.root) - w.cindex else 0
      {
        var x := path.Get(p, w);
        DepartureRound(app.calls, p.made, i, names, w, ndb);
        ghost var next := NextMatch(names, w);
        Depart(i, p, x);
        more := path.ToNext(p, w);
        if more { w := next.value; }
      }
    }

    lemma WatchCount(paths: Paths)
      requires Watches(paths)
      ensures |watchers| == |paths|
    {
    }

    /** p and pp are no watchers. */
    ghost predicate Apart(p: KeyPath, pp: KeyPath)
      reads this`watchers
    {
      p !in watchers && pp !in watchers && p != pp
    }

    method ValidateNext(i: nat, p: KeyPath, ghost paths: Paths) returns (ok: bool)
      requires Watches(paths) && p !in watchers && i < |paths|
      modifies watchers, p`names, p`made, app`calls
      ensures Watches(paths) && (app.calls, ok) == AskWatcher(app.answers, old(app.calls), paths, i, ndb)
      ensures p.made == (old(p.made) || paths[i] != [])
    {
      ok := Validate(i, watchers[i], p);
    }

    method ApplyNext(i: nat, p: KeyPath, pp: KeyPath, ghost paths: Paths)
      requires Watches(paths) && Apart(p, pp) && i < |paths| && p.made == Made(paths)
      modifies watchers, p, pp`names, pp`made, app`calls
      ensures Watches(paths) && app.calls == old(app.calls) + Effects(Made(paths), i, paths[i], ndb, db)
      ensures p.made == Made(paths)
    {
      assert paths[i] in paths;
      hide Made;
      ghost var was := app.calls;
      ApplyNew(i, watchers[i], p, pp);
      ApplyGone(i, watchers[i], p);
      TwoHalves(was, Made(paths), i, paths[i], ndb, db);
      hide Effects;
    }

    /** The first pass of handleactions. */
    method ValidateAll(p: KeyPath, ghost paths: Paths) returns (ok: bool)
      requires Watches(paths) && p !in watchers && !p.made
      modifies watchers, p`names, p`made, app`calls
      ensures Watches(paths) && (app.calls, ok) == StillToAsk(app.answers, old(app.calls), paths, 0, ndb)
      ensures ok ==> p.made == Made(paths)
    {
      hide StillToAsk, AskWatcher, Watches, Made;
      WatchCount(paths);
      ghost var end := StillToAsk(app.answers, app.calls, paths, 0, ndb);
      MadeSoFar(paths);
      var i := 0;
      while i < |watchers|
        invariant i <= |watchers| == |paths| && Watches(paths) && p.made == Made(paths[..i])
        invariant StillToAsk(app.answers, app.calls, paths, i, ndb) == end
      {
        AskNextWatcher(app.answers, app.calls, paths, i, ndb);
        MadeOneMore(paths, i);
        ok := ValidateNext(i, p, paths);
        if !ok { return; }
        i := i + 1;
      }
      AskEnds(app.answers, app.calls, paths, ndb);
      ok := true;
    }

    /** The second pass. */
    method ApplyAll(p: KeyPath, pp: KeyPath, ghost paths: Paths)
      requires Watches(paths) && Apart(p, pp) && p.made == Made(paths)
      modifies watchers, p, pp`names, pp`made, app`calls
      ensures Watches(paths) && app.calls == StillToTell(old(app.calls), paths, 0, ndb, db)
    {
      hide StillToTell, Effects, Watches, Made;
      WatchCount(paths);
      ghost var end := StillToTell(app.calls, paths, 0, ndb, db);
      var i := 0;
      while i < |watchers|
        invariant i <= |watchers| == |paths| && Watches(paths) && p.made == Made(paths)
        invariant StillToTell(app.calls, paths, i, ndb, db) == end
      {
        TellNextWatcher(app.calls, paths, i, ndb, db);
        ApplyNext(i, p, pp, paths);
        i := i + 1;
      }
      TellEnds(app.calls, paths, ndb, db);
    }

    /** handleactions */
    method HandleActions(ghost paths: Paths) returns (ok: bool)
      requires Watches(paths)
      modifies watchers, app`calls
      ensures Watches(paths)
      ensures var (calls, all) := Ask(app.answers, old(app.calls), AllChecks(paths, 0, ndb));
        ok == all && app.calls == if all then calls + AllEffects(paths, 0, ndb, db) else calls
    {
      hide Watches, StillToAsk, StillToTell;
      var p := new KeyPath([]);
      var pp := new KeyPath([]);
      AskStarts(app.answers, app.calls, paths, ndb);
      ok := ValidateAll(p, paths);
      if ok {
        TellStarts(app.calls, paths, ndb, db);
        ApplyAll(p, pp, paths);
      }
    }

    /** load, from the parsed file and what the validator said about it. */
    method Load(parsed: Option<Node>, checked: bool, ghost paths: Paths) returns (ok: bool)
      requires Watches(paths)
      modifies this`db, this`ndb, watchers, app`calls
      ensures Watches(paths) && Loaded(paths, app.answers, old(Progress()), parsed, checked, Progress(), ok)
    {
      hide Loaded, Watches;
      LoadedIs(paths, app.answers, Progress(), parsed, checked);
      if parsed == None { return false; }
      ndb := parsed.value;
      if !checked { return false; }
      ok := HandleActions(paths);
      if ok { db := ndb; }
    }
  }
}
