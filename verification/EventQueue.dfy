/**
 The event queue between threads (src/libgrace/eventq.cpp) and the scoped locks it uses
 (include/grace/lock.h), as the interleaved steps of any number of threads.
 */
module PendingEvents {
  datatype Event = Event(kind: string, body: string)

  /** What send was asked to deliver. */
  datatype Sent = Sent(event: Event, urgent: bool)

  /** Urgent events not yet taken, newest first. An event is known by its place in sent. */
  function UrgentsDown(sent: seq<Sent>, taken: set<nat>): seq<nat> {
    if sent == [] then []
    else
      var n := |sent| - 1;
      (if sent[n].urgent && n !in taken then [n] else []) + UrgentsDown(sent[..n], taken)
  }

  /** Normal events not yet taken, oldest first. */
  function NormalsUp(sent: seq<Sent>, taken: set<nat>): seq<nat> {
    if sent == [] then []
    else
      var n := |sent| - 1;
      NormalsUp(sent[..n], taken) + if !sent[n].urgent && n !in taken then [n] else []
  }

  function Pending(sent: seq<Sent>, taken: set<nat>): seq<nat> {
    UrgentsDown(sent, taken) + NormalsUp(sent, taken)
  }

  lemma {:induction false} UrgentsAre(sent: seq<Sent>, taken: set<nat>, x: nat)
    ensures x in UrgentsDown(sent, taken) <==> x < |sent| && sent[x].urgent && x !in taken
  {
    if sent != [] {
      var n := |sent| - 1;
      var last, rest := if sent[n].urgent && n !in taken then [n] else [], UrgentsDown(sent[..n], taken);
      UrgentsAre(sent[..n], taken, x);
      assert x in last + rest <==> x in last || x in rest;
    }
  }

  lemma {:induction false} NormalsAre(sent: seq<Sent>, taken: set<nat>, x: nat)
    ensures x in NormalsUp(sent, taken) <==> x < |sent| && !sent[x].urgent && x !in taken
  {
    if sent != [] {
      var n := |sent| - 1;
      var rest, last := NormalsUp(sent[..n], taken), if !sent[n].urgent && n !in taken then [n] else [];
      NormalsAre(sent[..n], taken, x);
      assert x in rest + last <==> x in rest || x in last;
    }
  }

  /** Every event sent is pending or taken, never both. */
  lemma PendingAre(sent: seq<Sent>, taken: set<nat>, x: nat)
    ensures x in Pending(sent, taken) <==> x < |sent| && x !in taken
  {
    UrgentsAre(sent, taken, x);
    NormalsAre(sent, taken, x);
  }

  lemma {:induction false} UrgentsTakeOther(sent: seq<Sent>, taken: set<nat>, x: nat)
    requires x >= |sent| || !sent[x].urgent
    ensures UrgentsDown(sent, taken + {x}) == UrgentsDown(sent, taken)
  {
    if sent != [] { UrgentsTakeOther(sent[..|sent| - 1], taken, x); }
  }

  lemma {:induction false} UrgentsTakeFirst(sent: seq<Sent>, taken: set<nat>)
    requires UrgentsDown(sent, taken) != []
    ensures UrgentsDown(sent, taken + {UrgentsDown(sent, taken)[0]}) == UrgentsDown(sent, taken)[1..]
  {
    var n, x := |sent| - 1, UrgentsDown(sent, taken)[0];
    if sent[n].urgent && n !in taken {
      UrgentsTakeOther(sent[..n], taken, x);
    } else {
      UrgentsTakeFirst(sent[..n], taken);
    }
  }

  lemma {:induction false} NormalsTakeOther(sent: seq<Sent>, taken: set<nat>, x: nat)
    requires x >= |sent| || sent[x].urgent
    ensures NormalsUp(sent, taken + {x}) == NormalsUp(sent, taken)
  {
    if sent != [] { NormalsTakeOther(sent[..|sent| - 1], taken, x); }
  }

  lemma {:induction false} NormalsTakeFirst(sent: seq<Sent>, taken: set<nat>)
    requires NormalsUp(sent, taken) != []
    ensures NormalsUp(sent, taken + {NormalsUp(sent, taken)[0]}) == NormalsUp(sent, taken)[1..]
  {
    var n, x := |sent| - 1, NormalsUp(sent, taken)[0];
    var rest := NormalsUp(sent[..n], taken);
    if rest == [] {
      NormalsTakeOther(sent[..n], taken, x);
    } else {
      assert x == rest[0];
      NormalsAre(sent[..n], taken, x);
      NormalsTakeFirst(sent[..n], taken);
      var last := if !sent[n].urgent && n !in taken then [n] else [];
      assert (rest + last)[1..] == rest[1..] + last;
    }
  }

  /** Taking the first pending event leaves the others in order. */
  lemma TakeFirst(sent: seq<Sent>, taken: set<nat>)
    requires Pending(sent, taken) != []
    ensures var x := Pending(sent, taken)[0];
      x < |sent| && x !in taken && Pending(sent, taken + {x}) == Pending(sent, taken)[1..]
  {
    var x := Pending(sent, taken)[0];
    var u, n := UrgentsDown(sent, taken), NormalsUp(sent, taken);
    assert x == if u != [] then u[0] else n[0];
    UrgentsAre(sent, taken, x);
    NormalsAre(sent, taken, x);
    if u != [] {
      UrgentsTakeFirst(sent, taken);
      NormalsTakeOther(sent, taken, x);
      assert (u + n)[1..] == u[1..] + n;
    } else {
      NormalsTakeFirst(sent, taken);
      UrgentsTakeOther(sent, taken, x);
      assert u + n == n;
      assert u + n[1..] == n[1..];
    }
  }

  lemma {:induction false} NormalsAscend(sent: seq<Sent>, taken: set<nat>, y: nat)
    requires y in NormalsUp(sent, taken)
    ensures NormalsUp(sent, taken)[0] <= y
  {
    var n := |sent| - 1;
    var rest := NormalsUp(sent[..n], taken);
    if rest != [] {
      NormalsAre(sent[..n], taken, rest[0]);
      if y in rest { NormalsAscend(sent[..n], taken, y); }
    }
  }

  /** When the first pending event is a normal one, every older normal event was taken. */
  lemma FirstIsOldest(sent: seq<Sent>, taken: set<nat>, y: nat)
    requires Pending(sent, taken) != [] && Pending(sent, taken)[0] < |sent| && !sent[Pending(sent, taken)[0]].urgent
    requires y < Pending(sent, taken)[0] && !sent[y].urgent
    ensures y in taken
  {
    var x := Pending(sent, taken)[0];
    if UrgentsDown(sent, taken) != [] {
      assert x == UrgentsDown(sent, taken)[0] && x in UrgentsDown(sent, taken);
      UrgentsAre(sent, taken, x);
    }
    NormalsAre(sent, taken, y);
    if y !in taken { NormalsAscend(sent, taken, y); }
  }

  lemma {:induction false} UrgentsOfOneMore(sent: seq<Sent>, taken: set<nat>, s: Sent)
    ensures UrgentsDown(sent + [s], taken) == (if s.urgent && |sent| !in taken then [|sent|] else []) + UrgentsDown(sent, taken)
  {
    assert (sent + [s])[..|sent|] == sent;
  }

  lemma {:induction false} NormalsOfOneMore(sent: seq<Sent>, taken: set<nat>, s: Sent)
    ensures NormalsUp(sent + [s], taken) == NormalsUp(sent, taken) + if !s.urgent && |sent| !in taken then [|sent|] else []
  {
    assert (sent + [s])[..|sent|] == sent;
  }

  /** An urgent event goes first, a normal one last. */
  lemma SendOne(sent: seq<Sent>, taken: set<nat>, s: Sent)
    requires |sent| !in taken
    ensures Pending(sent + [s], taken) ==
      if s.urgent then [|sent|] + Pending(sent, taken) else Pending(sent, taken) + [|sent|]
  {
    assert (sent + [s])[..|sent|] == sent;
    UrgentsOfOneMore(sent, taken, s);
    NormalsOfOneMore(sent, taken, s);
  }
}

/** The steps of the threads that share one queue. */
module EventThreads {
  import opened Wrappers
  import opened PendingEvents

  /** A thread's calls on the lock. */
  datatype Op = LockW | LockR | Unlock

  /** What a thread is asked to do: send an event under a type, wait for one, take one if
      there is one, or count them. */
  datatype Call = Send(event: Event, kind: string, urgent: bool) | Wait | Take | Count

  /** Where a thread is. A section is left by the destructor of scopedlock; breaksection is
      entered by the constructor of scopedunlock and left by its destructor. */
  datatype Place =
    | Idle
    | Entering(c: Call)
    | Inserting(c: Call)
    | Typing(c: Call)
    | Testing(c: Call)
    | Breaking(c: Call)
    | Waiting
    | Relocking
    | Returning
    | Reading
    | Removing
    | Counting
    | Leaving(c: Call)
    | Signalling

  /** An event in the queue, with the number of the send it came from, which no thread sees. */
  datatype Item = Item(event: Event, ticket: nat)

  /** locked and exclusive are the fields of the thread's scopedlock, res the result. */
  datatype Thread = Thread(at: Place, exclusive: bool, locked: bool, res: Option<Item>, ops: seq<Op>)

  /** An event given to thread t. */
  datatype Delivery = Delivery(t: nat, item: Item)

  /** The lock, the queue and the threads. sent and got only record what happened: what was
      asked to be put in the queue, in that order, and what was taken out. */
  datatype World = World(
    writer: Option<nat>, readers: set<nat>, queue: seq<Item>, threads: seq<Thread>,
    sent: seq<Sent>, got: seq<Delivery>)

  function Put(w: World, t: nat, th: Thread): World
    requires t < |w.threads|
  {
    w.(threads := w.threads[t := th])
  }

  /** scopedlock::lock; None while another thread is in the way. */
  function Lock(w: World, t: nat, next: Place): Option<World>
    requires t < |w.threads|
  {
    var th := w.threads[t];
    if th.locked then Some(Put(w, t, th.(at := next)))
    else if th.exclusive then
      if w.writer == None && w.readers == {} then
        Some(Put(w, t, th.(at := next, locked := true, ops := th.ops + [LockW])).(writer := Some(t)))
      else None
    else if w.writer == None then
      Some(Put(w, t, th.(at := next, locked := true, ops := th.ops + [LockR])).(readers := w.readers + {t}))
    else None
  }

  /** scopedlock::unlock */
  function Unlock(w: World, t: nat, next: Place): World
    requires t < |w.threads|
  {
    var th := w.threads[t];
    if !th.locked then Put(w, t, th.(at := next))
    else
      var u := Put(w, t, th.(at := next, locked := false, ops := th.ops + [Op.Unlock]));
      if w.writer == Some(t) then u.(writer := None) else u.(readers := w.readers - {t})
  }

  /** insertval () = ev, or newval () = ev */
  function Insert(w: World, t: nat): Option<World>
    requires t < |w.threads| && w.threads[t].at.Inserting?
  {
    var c := w.threads[t].at.c;
    if !c.Send? then None
    else
      var item := Item(c.event, |w.sent|);
      Some(Put(w, t, w.threads[t].(at := Typing(c))).(
        queue := if c.urgent then [item] + w.queue else w.queue + [item],
        sent := w.sent + [Sent(Event(c.kind, c.event.body), c.urgent)]))
  }

  /** ipc[0].type (tp), or ipc[-1].type (tp) */
  function SetType(w: World, t: nat): Option<World>
    requires t < |w.threads| && w.threads[t].at.Typing?
  {
    var c := w.threads[t].at.c;
    if !c.Send? || w.queue == [] then None
    else
      var i := if c.urgent then 0 else |w.queue| - 1;
      var item := w.queue[i];
      Some(Put(w, t, w.threads[t].(at := Leaving(c))).(queue := w.queue[i := item.(event := item.event.(kind := c.kind))]))
  }

  /** res = ipc[0] */
  function Read(w: World, t: nat): Option<World>
    requires t < |w.threads|
  {
    if w.queue == [] then None else Some(Put(w, t, w.threads[t].(at := Removing, res := Some(w.queue[0]))))
  }

  /** rmindex (0), after which res is the thread's. */
  function Remove(w: World, t: nat): Option<World>
    requires t < |w.threads|
  {
    if w.queue == [] || w.threads[t].res == None then None
    else
      Some(Put(w, t, w.threads[t].(at := Leaving(Wait))).(
        queue := w.queue[1..], got := w.got + [Delivery(t, w.threads[t].res.value)]))
  }

  /** One step of thread t: c is what it is asked when it has nothing to do, woken is what
      wait returns. */
  function Step(w: World, t: nat, c: Call, woken: bool): Option<World>
    requires t < |w.threads|
  {
    var th := w.threads[t];
    match th.at
    case Idle => Some(Put(w, t, Thread(Entering(c), c != Count, false, None, th.ops)))
    case Entering(c) => Lock(w, t, if c.Send? then Inserting(c) else if c == Count then Counting else Testing(c))
    case Inserting(_) => Insert(w, t)
    case Typing(_) => SetType(w, t)
    case Testing(c) => Some(Put(w, t, th.(at := if w.queue == [] then Breaking(c) else Reading)))
    case Breaking(c) => Some(Unlock(w, t, if c == Wait then Waiting else Returning))
    case Waiting => Some(Put(w, t, th.(at := if woken then Relocking else Returning)))
    case Relocking => Lock(w, t, Testing(Wait))
    case Returning => Some(Put(w, t, th.(at := Leaving(Wait))))
    case Reading => Read(w, t)
    case Removing => Remove(w, t)
    case Counting => Some(Put(w, t, th.(at := Leaving(Count))))
    case Leaving(c) => Some(Unlock(w, t, if c.Send? then Signalling else Idle))
    case Signalling => Some(Put(w, t, th.(at := Idle)))
  }

  /** The threads at the start: nothing asked, nothing locked. */
  function Fresh(n: nat): World {
    World(None, {}, [], seq(n, _ => Thread(Idle, false, false, None, [])), [], [])
  }

  /** A step chosen by the scheduler, the callers and the conditional. */
  datatype Choice = Choice(t: nat, c: Call, woken: bool)

  function Run(w: World, steps: seq<Choice>): Option<World>
    decreases |steps|
  {
    if steps == [] then Some(w)
    else if steps[0].t >= |w.threads| then None
    else
      match Step(w, steps[0].t, steps[0].c, steps[0].woken)
      case None => None
      case Some(w') => Run(w', steps[1..])
  }

  /** Places where the thread must not, and must, have its scopedlock locked. */
  predicate Outside(p: Place) {
    p.Idle? || p.Entering? || p.Waiting? || p.Relocking? || p.Returning? || p.Signalling?
  }

  predicate Inside(p: Place) {
    !Outside(p) && !p.Leaving?
  }

  /** Places of send and of the receiving calls. */
  predicate Exclusive(p: Place) {
    (Inside(p) && !p.Counting?) || p.Waiting? || p.Relocking?
  }

  predicate CallFits(p: Place, exclusive: bool) {
    && (p.Entering? ==> exclusive == (p.c != Count))
    && (p.Inserting? || p.Typing? ==> p.c.Send?)
    && (p.Testing? || p.Breaking? ==> p.c == Wait || p.c == Take)
    && (p.Counting? ==> !exclusive)
    && (Exclusive(p) ==> exclusive)
  }

  /** Lock and unlock strictly alternate. */
  predicate Alternate(ops: seq<Op>, locked: bool) {
    && (|ops| % 2 == 1 <==> locked)
    && forall i :: 0 <= i < |ops| ==> (ops[i] == Op.Unlock <==> i % 2 == 1)
  }

  predicate ThreadOk(th: Thread) {
    && (Outside(th.at) ==> !th.locked) && (Inside(th.at) ==> th.locked)
    && CallFits(th.at, th.exclusive) && Alternate(th.ops, th.locked)
  }

  /** The lock knows what the scopedlock of thread t believes. */
  predicate Agree(w: World, t: nat)
    requires t < |w.threads|
  {
    var th := w.threads[t];
    && ThreadOk(th)
    && (w.writer == Some(t) <==> th.locked && th.exclusive)
    && (t in w.readers <==> th.locked && !th.exclusive)
  }

  ghost predicate LocksOk(w: World) {
    && (forall t :: 0 <= t < |w.threads| ==> Agree(w, t))
    && (w.writer.Some? ==> w.writer.value < |w.threads| && w.readers == {})
  }

  lemma LockKeepsThread(w: World, t: nat, next: Place, u: nat)
    requires LocksOk(w) && t < |w.threads| && u < |w.threads| && Lock(w, t, next).Some?
    requires Inside(next) && CallFits(next, w.threads[t].exclusive)
    ensures Agree(Lock(w, t, next).value, u)
  {
    assert Agree(w, t) && Agree(w, u);
  }

  lemma UnlockKeepsThread(w: World, t: nat, next: Place, u: nat)
    requires LocksOk(w) && t < |w.threads| && u < |w.threads|
    requires Outside(next) && CallFits(next, w.threads[t].exclusive)
    ensures Agree(Unlock(w, t, next), u)
  {
    assert Agree(w, t) && Agree(w, u);
  }

  /** A step that leaves the lock alone. */
  ghost predicate Moves(w: World, t: nat, w': World)
    requires t < |w.threads|
  {
    && w'.writer == w.writer && w'.readers == w.readers && |w'.threads| == |w.threads|
    && w'.threads == w.threads[t := w'.threads[t]]
    && (w'.threads[t].locked, w'.threads[t].ops) == (w.threads[t].locked, w.threads[t].ops)
    && (w'.threads[t].exclusive == w.threads[t].exclusive || !w.threads[t].locked)
    && ThreadOk(w'.threads[t])
  }

  lemma MovesKeepThread(w: World, t: nat, w': World, u: nat)
    requires LocksOk(w) && t < |w.threads| && u < |w.threads| && Moves(w, t, w')
    ensures Agree(w', u)
  {
    assert Agree(w, t) && Agree(w, u);
    hide Alternate;
  }

  lemma OtherStepsMove(w: World, t: nat, c: Call, woken: bool)
    requires t < |w.threads| && Agree(w, t) && Step(w, t, c, woken).Some?
    ensures var p := w.threads[t].at;
      p.Entering? || p.Relocking? || p.Breaking? || p.Leaving? || Moves(w, t, Step(w, t, c, woken).value)
  {
    hide Alternate;
  }

  lemma StepKeepsThread(w: World, t: nat, c: Call, woken: bool, u: nat)
    requires LocksOk(w) && t < |w.threads| && u < |w.threads| && Step(w, t, c, woken).Some?
    ensures Agree(Step(w, t, c, woken).value, u)
  {
    assert Agree(w, t);
    OtherStepsMove(w, t, c, woken);
    match w.threads[t].at
    case Entering(c) => LockKeepsThread(w, t, if c.Send? then Inserting(c) else if c == Count then Counting else Testing(c), u);
    case Relocking => LockKeepsThread(w, t, Testing(Wait), u);
    case Breaking(c) => UnlockKeepsThread(w, t, if c == Wait then Waiting else Returning, u);
    case Leaving(c) => UnlockKeepsThread(w, t, if c.Send? then Signalling else Idle, u);
    case _ => MovesKeepThread(w, t, Step(w, t, c, woken).value, u);
  }

  /** Mutual exclusion, and every thread keeps to lock and unlock in turn. */
  lemma StepKeepsLocks(w: World, t: nat, c: Call, woken: bool)
    requires LocksOk(w) && t < |w.threads| && Step(w, t, c, woken).Some?
    ensures LocksOk(Step(w, t, c, woken).value)
  {
    var w' := Step(w, t, c, woken).value;
    forall u | 0 <= u < |w'.threads|
      ensures Agree(w', u)
    {
      StepKeepsThread(w, t, c, woken, u);
    }
    assert Agree(w, t);
    hide Agree;
  }

  /** Where the thread with the write lock is. */
  function InSection(w: World): Place
    requires w.writer.Some? ==> w.writer.value < |w.threads|
  {
    if w.writer == None then Idle else w.threads[w.writer.value].at
  }

  /** Which of n events has no type yet, while a thread is at p. */
  function Half(p: Place, n: nat): int {
    if p.Typing? && p.c.Send? then (if p.c.urgent then 0 else n - 1) else -1
  }

  /** The i-th event in the queue is what was sent, but for its type when half. */
  predicate Holds(item: Item, sent: seq<Sent>, half: bool, p: Place) {
    && item.ticket < |sent|
    && item.event.body == sent[item.ticket].event.body
    && (half ==> p.Typing? && p.c.Send? && p.c.kind == sent[item.ticket].event.kind)
    && (!half ==> item.event == sent[item.ticket].event)
  }

  /** The sends whose events were taken. */
  function Taken(got: seq<Delivery>): set<nat> {
    set k | 0 <= k < |got| :: got[k].item.ticket
  }

  function Order(queue: seq<Item>): (o: seq<nat>)
    ensures |o| == |queue| && forall i :: 0 <= i < |o| ==> o[i] == queue[i].ticket
  {
    if queue == [] then [] else [queue[0].ticket] + Order(queue[1..])
  }

  /** What holds of the events in the queue while a thread that has read res is at p. */
  predicate ItemsOk(queue: seq<Item>, sent: seq<Sent>, p: Place, res: Option<Item>) {
    && (forall i :: 0 <= i < |queue| ==> Holds(queue[i], sent, i == Half(p, |queue|), p))
    && (p.Typing? || p.Reading? || p.Removing? ==> queue != [])
    && (p.Removing? ==> res == Some(queue[0]))
  }

  /** The queue is the pending urgent events, newest first, and then the pending normal
      events, oldest first. */
  ghost predicate QueueOk(w: World)
    requires LocksOk(w)
  {
    && Order(w.queue) == Pending(w.sent, Taken(w.got))
    && ItemsOk(w.queue, w.sent, InSection(w), if w.writer == None then None else w.threads[w.writer.value].res)
  }

  predicate IsNormal(sent: seq<Sent>, d: Delivery) {
    d.item.ticket < |sent| && !sent[d.item.ticket].urgent
  }

  /** Each delivery is of an event sent, with its type, and of no event twice; normal events
      are delivered in the order of their sends. */
  ghost predicate GotOk(sent: seq<Sent>, got: seq<Delivery>) {
    && (forall k :: 0 <= k < |got| ==> got[k].item.ticket < |sent| && got[k].item.event == sent[got[k].item.ticket].event)
    && (forall j, k :: 0 <= j < k < |got| ==> got[j].item.ticket != got[k].item.ticket)
    && (forall j, k :: 0 <= j < k < |got| && IsNormal(sent, got[j]) && IsNormal(sent, got[k]) ==>
      got[j].item.ticket < got[k].item.ticket)
  }

  /** No normal event is taken before an older one. */
  ghost predicate OldestFirst(sent: seq<Sent>, taken: set<nat>) {
    forall x: nat, y: nat :: x < y < |sent| && !sent[x].urgent && !sent[y].urgent && y in taken ==> x in taken
  }

  ghost predicate Good(w: World) {
    LocksOk(w) && QueueOk(w) && GotOk(w.sent, w.got) && OldestFirst(w.sent, Taken(w.got))
  }

  /** Only a thread that holds the write lock reaches the queue. */
  lemma InSectionMeansHolding(w: World, t: nat)
    requires LocksOk(w) && t < |w.threads| && Exclusive(w.threads[t].at) && Inside(w.threads[t].at)
    ensures w.writer == Some(t) && InSection(w) == w.threads[t].at
  {
    assert Agree(w, t);
  }

  lemma {:induction false} OrderOfMore(x: Item, queue: seq<Item>)
    ensures Order([x] + queue) == [x.ticket] + Order(queue)
    ensures Order(queue + [x]) == Order(queue) + [x.ticket]
  {
  }

  lemma MoreSentKeepsGot(sent: seq<Sent>, got: seq<Delivery>, s: Sent)
    requires GotOk(sent, got) && OldestFirst(sent, Taken(got))
    ensures GotOk(sent + [s], got) && OldestFirst(sent + [s], Taken(got)) && |sent| !in Taken(got)
  {
    assert forall d <- got :: IsNormal(sent + [s], d) <==> IsNormal(sent, d);
  }

  /** The item goes in at its end, and is half done. */
  lemma InsertKeepsItems(queue: seq<Item>, sent: seq<Sent>, p: Place, res: Option<Item>, c: Call, res': Option<Item>)
    requires ItemsOk(queue, sent, p, res) && !p.Typing? && c.Send?
    ensures var item := Item(c.event, |sent|);
      ItemsOk(if c.urgent then [item] + queue else queue + [item], sent + [Sent(Event(c.kind, c.event.body), c.urgent)], Typing(c), res')
  {
    var item, sent' := Item(c.event, |sent|), sent + [Sent(Event(c.kind, c.event.body), c.urgent)];
    assert forall i :: 0 <= i < |queue| ==> Holds(queue[i], sent', false, Typing(c));
    assert Holds(item, sent', true, Typing(c));
  }

  lemma InsertKeepsGood(w: World, t: nat)
    requires Good(w) && t < |w.threads| && w.threads[t].at.Inserting? && Insert(w, t).Some?
    requires LocksOk(Insert(w, t).value)
    ensures Good(Insert(w, t).value)
  {
    hide LocksOk, Pending, ItemsOk, GotOk, OldestFirst, Taken;
    var w' := Insert(w, t).value;
    var c := w.threads[t].at.c;
    var s, res := Sent(Event(c.kind, c.event.body), c.urgent), w.threads[t].res;
    InSectionMeansHolding(w, t);
    InSectionMeansHolding(w', t);
    MoreSentKeepsGot(w.sent, w.got, s);
    InsertKeepsItems(w.queue, w.sent, InSection(w), res, c, res);
    OrderOfMore(Item(c.event, |w.sent|), w.queue);
    SendOne(w.sent, Taken(w.got), s);
  }

  lemma TypingKeepsItems(queue: seq<Item>, sent: seq<Sent>, p: Place, res: Option<Item>)
    requires ItemsOk(queue, sent, p, res) && p.Typing? && p.c.Send?
    ensures var i := Half(p, |queue|);
      var queue' := queue[i := queue[i].(event := queue[i].event.(kind := p.c.kind))];
      ItemsOk(queue', sent, Leaving(p.c), res) && Order(queue') == Order(queue)
  {
    var i := Half(p, |queue|);
    var queue' := queue[i := queue[i].(event := queue[i].event.(kind := p.c.kind))];
    assert Holds(queue[i], sent, true, p);
    assert Order(queue') == Order(queue);
  }

  lemma SetTypeKeepsGood(w: World, t: nat)
    requires Good(w) && t < |w.threads| && w.threads[t].at.Typing? && SetType(w, t).Some?
    requires LocksOk(SetType(w, t).value)
    ensures Good(SetType(w, t).value)
  {
    hide Pending, ItemsOk, GotOk, OldestFirst, Taken;
    var w' := SetType(w, t).value;
    InSectionMeansHolding(w, t);
    assert Agree(w', t);
    TypingKeepsItems(w.queue, w.sent, InSection(w), w.threads[t].res);
  }

  lemma MoreTaken(got: seq<Delivery>, d: Delivery)
    ensures Taken(got + [d]) == Taken(got) + {d.item.ticket}
  {
    var more := got + [d];
    assert forall k :: 0 <= k < |got| ==> more[k] == got[k];
    assert more[|got|] == d;
    forall x | x in Taken(got) + {d.item.ticket}
      ensures x in Taken(more)
    {
      var k :| 0 <= k < |more| && more[k].item.ticket == x;
    }
  }

  /** What is taken is the first pending event, with the type it was sent with. */
  lemma TakingKeepsGot(sent: seq<Sent>, got: seq<Delivery>, d: Delivery)
    requires GotOk(sent, got) && OldestFirst(sent, Taken(got))
    requires Pending(sent, Taken(got)) != [] && d.item.ticket == Pending(sent, Taken(got))[0]
    requires d.item.ticket < |sent| && d.item.event == sent[d.item.ticket].event && d.item.ticket !in Taken(got)
    ensures GotOk(sent, got + [d]) && OldestFirst(sent, Taken(got + [d]))
  {
    var x := d.item.ticket;
    MoreTaken(got, d);
    forall y: nat | y < x && !sent[y].urgent && !sent[x].urgent
      ensures y in Taken(got)
    {
      FirstIsOldest(sent, Taken(got), y);
    }
    hide Pending;
    forall j | 0 <= j < |got|
      ensures got[j].item.ticket != x && (IsNormal(sent, got[j]) && !sent[x].urgent ==> got[j].item.ticket < x)
    {
      assert got[j].item.ticket in Taken(got);
    }
  }

  lemma ReadKeepsGood(w: World, t: nat)
    requires Good(w) && t < |w.threads| && w.threads[t].at.Reading? && Read(w, t).Some?
    requires LocksOk(Read(w, t).value)
    ensures Good(Read(w, t).value)
  {
    InSectionMeansHolding(w, t);
    InSectionMeansHolding(Read(w, t).value, t);
    hide LocksOk, Pending, GotOk, OldestFirst;
  }

  lemma {:induction false} RestIsOk(queue: seq<Item>, sent: seq<Sent>, p: Place, res: Option<Item>)
    requires ItemsOk(queue, sent, p, res) && p.Removing?
    ensures ItemsOk(queue[1..], sent, Leaving(Wait), res) && Order(queue[1..]) == Order(queue)[1..]
    ensures res == Some(queue[0]) && Holds(queue[0], sent, false, p)
  {
  }

  lemma RemoveKeepsGood(w: World, t: nat)
    requires Good(w) && t < |w.threads| && w.threads[t].at.Removing? && Remove(w, t).Some?
    requires LocksOk(Remove(w, t).value)
    ensures Good(Remove(w, t).value)
  {
    var w' := Remove(w, t).value;
    InSectionMeansHolding(w, t);
    assert Agree(w', t);
    RestIsOk(w.queue, w.sent, InSection(w), w.threads[t].res);
    TakeFirst(w.sent, Taken(w.got));
    TakingKeepsGot(w.sent, w.got, Delivery(t, w.queue[0]));
    MoreTaken(w.got, Delivery(t, w.queue[0]));
    hide LocksOk, Pending, ItemsOk, GotOk, OldestFirst, Taken;
  }

  /** A step that leaves queue, sent and got alone. */
  lemma OthersKeepGood(w: World, t: nat, w': World)
    requires Good(w) && LocksOk(w') && t < |w.threads|
    requires (w'.queue, w'.sent, w'.got) == (w.queue, w.sent, w.got)
    requires var p := InSection(w');
      if p == InSection(w) then p.Removing? ==> w'.threads[w'.writer.value].res == w.threads[w.writer.value].res
      else !InSection(w).Typing? && !p.Removing? && !p.Typing? && (p.Reading? ==> w.queue != [])
    ensures Good(w')
  {
    hide LocksOk, Pending, GotOk, OldestFirst;
  }

  lemma OtherStepsKeepGood(w: World, t: nat, c: Call, woken: bool)
    requires Good(w) && t < |w.threads| && Step(w, t, c, woken).Some? && LocksOk(Step(w, t, c, woken).value)
    requires var p := w.threads[t].at; !p.Inserting? && !p.Typing? && !p.Reading? && !p.Removing?
    ensures Good(Step(w, t, c, woken).value)
  {
    hide QueueOk, GotOk, OldestFirst, Alternate;
    var w' := Step(w, t, c, woken).value;
    assert Agree(w, t) && Agree(w', t);
    if w.writer.Some? { assert Agree(w, w.writer.value); }
    OthersKeepGood(w, t, w');
  }

  lemma StepKeepsGood(w: World, t: nat, c: Call, woken: bool)
    requires Good(w) && t < |w.threads| && Step(w, t, c, woken).Some?
    ensures Good(Step(w, t, c, woken).value)
  {
    StepKeepsLocks(w, t, c, woken);
    hide Good, LocksOk;
    match w.threads[t].at
    case Inserting(_) => InsertKeepsGood(w, t);
    case Typing(_) => SetTypeKeepsGood(w, t);
    case Reading => ReadKeepsGood(w, t);
    case Removing => RemoveKeepsGood(w, t);
    case _ => OtherStepsKeepGood(w, t, c, woken);
  }

  lemma {:induction false} RunKeepsGood(w: World, steps: seq<Choice>)
    requires Good(w) && Run(w, steps).Some?
    ensures Good(Run(w, steps).value)
    decreases |steps|
  {
    if steps != [] {
      StepKeepsGood(w, steps[0].t, steps[0].c, steps[0].woken);
      hide Good;
      RunKeepsGood(Step(w, steps[0].t, steps[0].c, steps[0].woken).value, steps[1..]);
    }
  }

  /** In every interleaving of any number of threads the queue is in order and the lock is
      kept. */
  lemma {:induction false} EveryRunIsGood(n: nat, steps: seq<Choice>)
    requires Run(Fresh(n), steps).Some?
    ensures Good(Run(Fresh(n), steps).value)
  {
    hide Good;
    FreshIsGood(n);
    RunKeepsGood(Fresh(n), steps);
  }

  lemma FreshIsGood(n: nat)
    ensures Good(Fresh(n))
  {
  }

  /** Every event sent is in the queue or was delivered, to one thread and once. */
  lemma SentIsPendingOrDeliveredOnce(w: World, x: nat)
    requires Good(w) && x < |w.sent|
    ensures (exists i :: 0 <= i < |w.queue| && w.queue[i].ticket == x) <==> !exists k :: 0 <= k < |w.got| && w.got[k].item.ticket == x
    ensures forall j, k :: 0 <= j < k < |w.got| ==> w.got[j].item.ticket != w.got[k].item.ticket
    ensures w.writer == None ==> forall i :: 0 <= i < |w.queue| ==> w.queue[i].event == w.sent[w.queue[i].ticket].event
  {
    PendingAre(w.sent, Taken(w.got), x);
    var o := Order(w.queue);
    assert x in o <==> exists i :: 0 <= i < |o| && o[i] == x;
    hide Pending;
    if i :| 0 <= i < |w.queue| && w.queue[i].ticket == x { assert o[i] == x; }
    assert x in Taken(w.got) <==> exists k :: 0 <= k < |w.got| && w.got[k].item.ticket == x;
  }

  /** A thread waits for nothing but the lock: no read of an empty queue, no missing result. */
  lemma StuckOnlyOnTheLock(w: World, t: nat, c: Call, woken: bool)
    requires Good(w) && t < |w.threads| && Step(w, t, c, woken) == None
    ensures w.threads[t].at.Entering? || w.threads[t].at.Relocking?
    ensures (w.writer.Some? && w.writer != Some(t)) || w.readers != {}
  {
    assert Agree(w, t);
    hide Pending, GotOk, OldestFirst, Alternate;
  }

  /** The queue is written, and looked at, by a thread with the lock only. */
  lemma TouchedOnlyWhenHeld(w: World, t: nat, c: Call, woken: bool)
    requires LocksOk(w) && t < |w.threads| && Step(w, t, c, woken).Some?
    ensures Step(w, t, c, woken).value.queue != w.queue ==> w.writer == Some(t)
    ensures w.threads[t].at.Testing? || w.threads[t].at.Reading? ==> w.writer == Some(t)
    ensures w.threads[t].at.Counting? ==> t in w.readers && w.writer == None
  {
    assert Agree(w, t);
    hide Alternate, Pending;
  }

  /** Between calls and while it waits a thread holds nothing; its lock and unlock calls are
      in pairs. */
  lemma NothingIsHeldOutside(w: World, t: nat)
    requires LocksOk(w) && t < |w.threads|
    ensures w.threads[t].at.Idle? || w.threads[t].at.Waiting? ==> w.writer != Some(t) && t !in w.readers && |w.threads[t].ops| % 2 == 0
    ensures forall i :: 0 <= i < |w.threads[t].ops| ==> (w.threads[t].ops[i] == Op.Unlock <==> i % 2 == 1)
  {
    assert Agree(w, t);
  }

  /** An urgent event overtakes every normal one: what is delivered next is normal only when
      no urgent event is pending. */
  lemma UrgentFirst(w: World, x: nat)
    requires Good(w) && w.queue != [] && w.queue[0].ticket < |w.sent| && !w.sent[w.queue[0].ticket].urgent
    requires x < |w.sent| && w.sent[x].urgent
    ensures x in Taken(w.got)
  {
    var u := UrgentsDown(w.sent, Taken(w.got));
    assert Order(w.queue)[0] == Pending(w.sent, Taken(w.got))[0];
    if u != [] { UrgentsAre(w.sent, Taken(w.got), u[0]); }
    UrgentsAre(w.sent, Taken(w.got), x);
  }

  /** With no urgent events the deliveries are the sends, in order and with nothing left out. */
  lemma {:induction false} NormalEventsAreFifo(w: World, k: nat)
    requires Good(w) && k < |w.got| && forall s <- w.sent :: !s.urgent
    ensures k < |w.sent| && w.got[k].item == Item(w.sent[k].event, k)
  {
    var x := w.got[k].item.ticket;
    forall j | 0 <= j < k
      ensures w.got[j].item.ticket == j
    {
      NormalEventsAreFifo(w, j);
    }
    hide QueueOk, LocksOk;
    assert forall j :: 0 <= j < |w.got| ==> IsNormal(w.sent, w.got[j]) by {
      assert forall j :: 0 <= j < |w.got| ==> w.sent[w.got[j].item.ticket] in w.sent;
    }
    assert x >= k by {
      if k > 0 { assert w.got[k - 1].item.ticket == k - 1 < x; }
    }
  }

  /** Normal events of which the first k were taken. */
  lemma {:induction false} NormalsFrom(sent: seq<Sent>, taken: set<nat>, k: nat)
    requires (forall s <- sent :: !s.urgent) && forall x: nat :: x in taken <==> x < k
    ensures UrgentsDown(sent, taken) == []
    ensures NormalsUp(sent, taken) == seq(if |sent| > k then |sent| - k else 0, i requires i >= 0 => k + i)
  {
    if sent != [] {
      var n := |sent| - 1;
      assert !sent[n].urgent;
      NormalsFrom(sent[..n], taken, k);
    }
  }

  lemma {:induction false} TakenUpTo(w: World, x: nat)
    requires Good(w) && forall s <- w.sent :: !s.urgent
    ensures x in Taken(w.got) <==> x < |w.got|
  {
    hide Good;
    if x < |w.got| { NormalEventsAreFifo(w, x); }
    if x in Taken(w.got) {
      var k :| 0 <= k < |w.got| && w.got[k].item.ticket == x;
      NormalEventsAreFifo(w, k);
    }
  }

  /** Without urgent events the deliveries and then the queue are the sends, in order. */
  lemma DeliveredThenQueued(w: World)
    requires Good(w) && forall s <- w.sent :: !s.urgent
    ensures |w.got| + |w.queue| == |w.sent|
    ensures forall i :: 0 <= i < |w.queue| ==> w.queue[i].ticket == |w.got| + i
  {
    forall x: nat ensures x in Taken(w.got) <==> x < |w.got| {
      TakenUpTo(w, x);
    }
    NormalsFrom(w.sent, Taken(w.got), |w.got|);
    if w.got != [] { NormalEventsAreFifo(w, |w.got| - 1); }
    assert Order(w.queue) == Pending(w.sent, Taken(w.got)) == NormalsUp(w.sent, Taken(w.got));
  }
}

/** Runs in which one thread sends and one receives. */
module EventRoles {
  import opened PendingEvents
  import opened EventThreads

  /** The calls that thread t is given in a run. */
  function Asked(w: World, steps: seq<Choice>, t: nat): seq<Call>
    requires Run(w, steps).Some?
    decreases |steps|
  {
    if steps == [] then []
    else
      var s := steps[0];
      (if s.t == t && w.threads[t].at == Idle then [s.c] else []) + Asked(Step(w, s.t, s.c, s.woken).value, steps[1..], t)
  }

  /** What is to be put in the queue for them. */
  function SendsOf(cs: seq<Call>): seq<Sent> {
    if cs == [] then []
    else (if cs[0].Send? then [Sent(Event(cs[0].kind, cs[0].event.body), cs[0].urgent)] else []) + SendsOf(cs[1..])
  }

  predicate Fitting(c: Call, t: nat, d: nat, r: nat) {
    (c.Send? ==> t == d) && (c == Wait || c == Take ==> t == r)
  }

  /** Only d sends, and only r receives. */
  ghost predicate Roles(w: World, steps: seq<Choice>, d: nat, r: nat)
    requires Run(w, steps).Some?
  {
    forall t: nat, c <- Asked(w, steps, t) :: Fitting(c, t, d, r)
  }

  /** A send that is not in the queue yet. */
  function InHand(p: Place): seq<Sent> {
    if p.Entering? || p.Inserting? then SendsOf([p.c]) else []
  }

  predicate Receiving(p: Place) {
    || (p.Entering? && (p.c == Wait || p.c == Take))
    || p.Testing? || p.Breaking? || p.Waiting? || p.Relocking? || p.Returning? || p.Reading? || p.Removing?
  }

  ghost predicate InRole(w: World, d: nat, r: nat) {
    && (forall t :: 0 <= t < |w.threads| && t != d ==> InHand(w.threads[t].at) == [])
    && (forall t :: 0 <= t < |w.threads| && t != r ==> !Receiving(w.threads[t].at))
    && (forall k :: 0 <= k < |w.got| ==> w.got[k].t == r)
  }

  function Handed(w: World, d: nat): seq<Sent>
    requires d < |w.threads|
  {
    w.sent + InHand(w.threads[d].at)
  }

  lemma SendsOfOne(c: Call)
    ensures SendsOf([c]) == if c.Send? then [Sent(Event(c.kind, c.event.body), c.urgent)] else []
  {
    assert SendsOf([c][1..]) == [];
  }

  lemma StepIsOfOne(w: World, t: nat, c: Call, woken: bool)
    requires t < |w.threads| && Step(w, t, c, woken).Some?
    ensures var w' := Step(w, t, c, woken).value;
      |w'.threads| == |w.threads| && w'.threads == w.threads[t := w'.threads[t]]
  {
  }

  /** A send is in hand from the call until it is in the queue. */
  lemma StepHands(w: World, t: nat, c: Call, woken: bool)
    requires t < |w.threads| && Step(w, t, c, woken).Some?
    ensures var w' := Step(w, t, c, woken).value;
      && |w'.threads| == |w.threads| && w.sent <= w'.sent
      && Handed(w', t) == Handed(w, t) + if w.threads[t].at == Idle then SendsOf([c]) else []
  {
    hide SendsOf;
    var p := w.threads[t].at;
    if p.Inserting? {
      InsertHands(w, t);
    } else {
      SendsOfOne(c);
      if p.Entering? { SendsOfOne(p.c); }
      assert Step(w, t, c, woken).value.sent == w.sent;
    }
  }

  lemma InsertHands(w: World, t: nat)
    requires t < |w.threads| && w.threads[t].at.Inserting? && Insert(w, t).Some?
    ensures var w' := Insert(w, t).value;
      |w'.threads| == |w.threads| && w.sent <= w'.sent && Handed(w', t) == Handed(w, t)
  {
    hide SendsOf;
    SendsOfOne(w.threads[t].at.c);
  }

  lemma StepDelivers(w: World, t: nat, c: Call, woken: bool)
    requires t < |w.threads| && Step(w, t, c, woken).Some?
    ensures var got' := Step(w, t, c, woken).value.got;
      got' == w.got || (w.threads[t].at == Removing && w.threads[t].res.Some? && got' == w.got + [Delivery(t, w.threads[t].res.value)])
  {
  }

  lemma StepReceives(w: World, t: nat, c: Call, woken: bool)
    requires t < |w.threads| && Step(w, t, c, woken).Some?
    ensures var w' := Step(w, t, c, woken).value;
      && |w'.threads| == |w.threads| && w.got <= w'.got
      && (forall k :: |w.got| <= k < |w'.got| ==> w'.got[k].t == t && Receiving(w.threads[t].at))
      && (Receiving(w'.threads[t].at) ==> Receiving(w.threads[t].at) || (w.threads[t].at == Idle && (c == Wait || c == Take)))
  {
    hide Step;
    StepStartsToReceive(w, t, c, woken);
    StepDelivers(w, t, c, woken);
    var got' := Step(w, t, c, woken).value.got;
    if got' != w.got {
      var d := Delivery(t, w.threads[t].res.value);
      assert got' == w.got + [d] && (w.got + [d])[|w.got|] == d && Receiving(Removing);
    }
  }

  lemma StepStartsToReceive(w: World, t: nat, c: Call, woken: bool)
    requires t < |w.threads| && Step(w, t, c, woken).Some?
    ensures var w' := Step(w, t, c, woken).value;
      && |w'.threads| == |w.threads|
      && (Receiving(w'.threads[t].at) ==> Receiving(w.threads[t].at) || (w.threads[t].at == Idle && (c == Wait || c == Take)))
  {
  }

  lemma StepKeepsRoles(w: World, t: nat, c: Call, woken: bool, d: nat, r: nat)
    requires t < |w.threads| && d < |w.threads| && Step(w, t, c, woken).Some? && InRole(w, d, r)
    requires w.threads[t].at == Idle ==> Fitting(c, t, d, r)
    ensures var w' := Step(w, t, c, woken).value;
      && |w'.threads| == |w.threads| && InRole(w', d, r)
      && Handed(w', d) == Handed(w, d) + if t == d && w.threads[t].at == Idle then SendsOf([c]) else []
  {
    hide Step, SendsOf, InHand, Receiving, Handed;
    StepIsOfOne(w, t, c, woken);
    StepHands(w, t, c, woken);
    StepReceives(w, t, c, woken);
    SendsOfOne(c);
    var w' := Step(w, t, c, woken).value;
    assert Handed(w, t) + [] == Handed(w, t) && Handed(w, d) + [] == Handed(w, d);
    if t != d {
      NoneInHand(w, w', t);
      HandedOfOther(w, w', d);
    }
    forall u | 0 <= u < |w'.threads| && u != d ensures InHand(w'.threads[u].at) == [] {
      assert u != t ==> w'.threads[u] == w.threads[u];
    }
    forall u | 0 <= u < |w'.threads| && u != r ensures !Receiving(w'.threads[u].at) {
      assert u != t ==> w'.threads[u] == w.threads[u];
    }
    forall k | 0 <= k < |w'.got| ensures w'.got[k].t == r {
      assert k < |w.got| ==> w'.got[k] == w.got[k];
    }
  }

  lemma HandedOfOther(w: World, w': World, d: nat)
    requires d < |w.threads| == |w'.threads| && w'.sent == w.sent && w'.threads[d] == w.threads[d]
    ensures Handed(w', d) == Handed(w, d)
  {
  }

  lemma NoneInHand(w: World, w': World, t: nat)
    requires t < |w.threads| == |w'.threads| && w.sent <= w'.sent && InHand(w.threads[t].at) == []
    requires Handed(w', t) == Handed(w, t)
    ensures w'.sent == w.sent && InHand(w'.threads[t].at) == []
  {
    hide InHand;
    assert |Handed(w', t)| == |w.sent|;
  }

  lemma {:induction false} SendsInTwo(a: seq<Call>, b: seq<Call>)
    ensures SendsOf(a + b) == SendsOf(a) + SendsOf(b)
  {
    if a == [] {
      assert a + b == b;
    } else {
      assert (a + b)[1..] == a[1..] + b && (a + b)[0] == a[0];
      SendsInTwo(a[1..], b);
      var first := if a[0].Send? then [Sent(Event(a[0].kind, a[0].event.body), a[0].urgent)] else [];
      assert first + (SendsOf(a[1..]) + SendsOf(b)) == (first + SendsOf(a[1..])) + SendsOf(b);
    }
  }

  lemma {:induction false} RunKeepsRoles(w: World, steps: seq<Choice>, d: nat, r: nat)
    requires d < |w.threads| && Run(w, steps).Some? && Roles(w, steps, d, r) && InRole(w, d, r)
    ensures var w' := Run(w, steps).value;
      && |w'.threads| == |w.threads| && InRole(w', d, r)
      && Handed(w', d) == Handed(w, d) + SendsOf(Asked(w, steps, d))
    decreases |steps|
  {
    hide Step, InRole, Fitting, Roles, Handed;
    if steps != [] {
      var s := steps[0];
      var w' := Step(w, s.t, s.c, s.woken).value;
      RolesOfRest(w, steps, d, r);
      StepKeepsRoles(w, s.t, s.c, s.woken, d, r);
      RunKeepsRoles(w', steps[1..], d, r);
      var first, rest := if s.t == d && w.threads[d].at == Idle then [s.c] else [], Asked(w', steps[1..], d);
      assert Asked(w, steps, d) == first + rest;
      SendsInTwo(first, rest);
      assert (Handed(w, d) + SendsOf(first)) + SendsOf(rest) == Handed(w, d) + (SendsOf(first) + SendsOf(rest));
    }
  }

  lemma {:induction false} RolesOfRest(w: World, steps: seq<Choice>, d: nat, r: nat)
    requires steps != [] && Run(w, steps).Some? && Roles(w, steps, d, r)
    ensures var s := steps[0];
      && (w.threads[s.t].at == Idle ==> Fitting(s.c, s.t, d, r))
      && Roles(Step(w, s.t, s.c, s.woken).value, steps[1..], d, r)
  {
    hide Step, Fitting;
    var s := steps[0];
    var w' := Step(w, s.t, s.c, s.woken).value;
    assert w.threads[s.t].at == Idle ==> s.c in Asked(w, steps, s.t);
    forall t: nat, c | c in Asked(w', steps[1..], t) ensures Fitting(c, t, d, r) {
      assert c in Asked(w, steps, t);
    }
  }

  /** In every run in which only d sends, nothing of it urgent, and only r receives: the
      deliveries all go to r, and they are what d was asked to send, in order and as far as
      they have come; when the queue is empty between d's sends, that is all of it. */
  lemma {:induction false} OneSenderOneReceiver(n: nat, steps: seq<Choice>, d: nat, r: nat)
    requires d < n && Run(Fresh(n), steps).Some? && Roles(Fresh(n), steps, d, r)
    requires forall s <- SendsOf(Asked(Fresh(n), steps, d)) :: !s.urgent
    ensures var w, sends := Run(Fresh(n), steps).value, SendsOf(Asked(Fresh(n), steps, d));
      && |w.threads| == n && |w.got| <= |sends|
      && (forall k :: 0 <= k < |w.got| ==> w.got[k].t == r && w.got[k].item.event == sends[k].event)
      && (w.queue == [] && w.threads[d].at == Idle ==> |w.got| == |sends|)
  {
    hide Good, Roles, InRole, Handed;
    var w, sends := Run(Fresh(n), steps).value, SendsOf(Asked(Fresh(n), steps, d));
    EveryRunIsGood(n, steps);
    FreshIsInRole(n, d, r);
    RunKeepsRoles(Fresh(n), steps, d, r);
    HandedIs(w, d, sends);
    DeliveredThenQueued(w);
    forall k | 0 <= k < |w.got| ensures w.got[k].t == r && w.got[k].item.event == sends[k].event {
      GotByReceiver(w, d, r, k);
      NormalEventsAreFifo(w, k);
    }
  }

  lemma FreshIsInRole(n: nat, d: nat, r: nat)
    requires d < n
    ensures |Fresh(n).threads| == n && InRole(Fresh(n), d, r) && Handed(Fresh(n), d) == []
  {
  }

  lemma GotByReceiver(w: World, d: nat, r: nat, k: nat)
    requires InRole(w, d, r) && k < |w.got|
    ensures w.got[k].t == r
  {
  }

  lemma HandedIs(w: World, d: nat, sends: seq<Sent>)
    requires d < |w.threads| && Handed(w, d) == sends && forall s <- sends :: !s.urgent
    ensures w.sent <= sends && (forall s <- w.sent :: !s.urgent) && (w.threads[d].at == Idle ==> w.sent == sends)
  {
    hide SendsOf;
    forall s | s in w.sent ensures !s.urgent {
      assert s in sends;
    }
  }
}

/** What one thread does in a run, from what it finds in the queue and what wait answers. */
module EventTraces {
  import opened Wrappers
  import opened PendingEvents
  import opened EventThreads
  import opened EventRoles

  function Contents(queue: seq<Item>): (r: seq<Event>)
    ensures |r| == |queue| && forall i :: 0 <= i < |r| ==> r[i] == queue[i].event
  {
    seq(|queue|, i requires 0 <= i < |queue| => queue[i].event)
  }

  /** The contents that thread t finds when it looks whether there is an event. */
  function FoundIn(w: World, steps: seq<Choice>, t: nat): seq<seq<Event>>
    requires Run(w, steps).Some?
    decreases |steps|
  {
    if steps == [] then []
    else
      var s := steps[0];
      (if s.t == t && w.threads[t].at.Testing? then [Contents(w.queue)] else [])
      + FoundIn(Step(w, s.t, s.c, s.woken).value, steps[1..], t)
  }

  /** The answers that wait gives it. */
  function WaitsIn(w: World, steps: seq<Choice>, t: nat): seq<bool>
    requires Run(w, steps).Some?
    decreases |steps|
  {
    if steps == [] then []
    else
      var s := steps[0];
      (if s.t == t && w.threads[t].at == Waiting then [s.woken] else [])
      + WaitsIn(Step(w, s.t, s.c, s.woken).value, steps[1..], t)
  }

  /** The event that a call comes to, and the calls on the lock that it still makes. */
  datatype Course = Course(res: Option<Event>, ops: seq<Op>)

  function After(op: Op, c: Course): Course {
    Course(c.res, [op] + c.ops)
  }

  /** With the lock, before the look at the queue. */
  function AtTest(c: Call, found: seq<seq<Event>>, waits: seq<bool>): Course
    decreases |waits|, 1
  {
    if found != [] && found[0] != [] then Course(Some(found[0][0]), [Op.Unlock])
    else AtBreak(c, if found == [] then [] else found[1..], waits)
  }

  /** The queue was empty. */
  function AtBreak(c: Call, found: seq<seq<Event>>, waits: seq<bool>): Course
    decreases |waits|, 0
  {
    if c != Wait || waits == [] || !waits[0] then Course(None, [Op.Unlock])
    else After(Op.Unlock, After(LockW, AtTest(c, found, waits[1..])))
  }

  /** All of a call. */
  function Whole(c: Call, found: seq<seq<Event>>, waits: seq<bool>): Course {
    if c == Count then Course(None, [LockR, Op.Unlock])
    else if c.Send? then Course(None, [LockW, Op.Unlock])
    else After(LockW, AtTest(c, found, waits))
  }

  /** What is left of a call while the thread is th and the queue is now. */
  function Rest(th: Thread, now: seq<Item>, found: seq<seq<Event>>, waits: seq<bool>): Course {
    match th.at
    case Entering(c) => Whole(c, found, waits)
    case Inserting(_) => Course(None, [Op.Unlock])
    case Typing(_) => Course(None, [Op.Unlock])
    case Counting => Course(None, [Op.Unlock])
    case Testing(c) => AtTest(c, found, waits)
    case Breaking(c) => AtBreak(c, found, waits)
    case Waiting =>
      if waits == [] || !waits[0] then Course(None, []) else After(LockW, AtTest(Wait, found, waits[1..]))
    case Relocking => After(LockW, AtTest(Wait, found, waits))
    case Reading => Course(if now == [] then None else Some(now[0].event), [Op.Unlock])
    case Removing => Course(if th.res == None then None else Some(th.res.value.event), [Op.Unlock])
    case Leaving(_) => Course(None, if th.locked then [Op.Unlock] else [])
    case _ => Course(None, [])
  }

  function GotBy(got: seq<Delivery>, t: nat): seq<Event> {
    if got == [] then []
    else
      var n := |got| - 1;
      GotBy(got[..n], t) + if got[n].t == t then [got[n].item.event] else []
  }

  lemma {:induction false} GotOneMore(got: seq<Delivery>, d: Delivery, t: nat)
    ensures GotBy(got + [d], t) == GotBy(got, t) + if d.t == t then [d.item.event] else []
  {
    assert (got + [d])[..|got|] == got;
  }

  function Given(c: Course): seq<Event> {
    if c.res == None then [] else [c.res.value]
  }

  /** A step of the thread itself takes its course one step further. */
  lemma OwnOps(w: World, t: nat, c: Call, woken: bool, found: seq<seq<Event>>, waits: seq<bool>)
    requires LocksOk(w) && t < |w.threads| && Step(w, t, c, woken).Some? && w.threads[t].at != Idle
    ensures var w', th := Step(w, t, c, woken).value, w.threads[t];
      var f := if th.at.Testing? then [Contents(w.queue)] + found else found;
      var a := if th.at == Waiting then [woken] + waits else waits;
      && |w'.threads| == |w.threads|
      && w'.threads[t].ops + Rest(w'.threads[t], w'.queue, found, waits).ops == th.ops + Rest(th, w.queue, f, a).ops
  {
    assert Agree(w, t);
    hide Alternate;
  }

  lemma OwnResult(w: World, t: nat, c: Call, woken: bool, found: seq<seq<Event>>, waits: seq<bool>)
    requires t < |w.threads| && Step(w, t, c, woken).Some? && w.threads[t].at != Idle && w.threads[t].at != Removing
    ensures var w', th := Step(w, t, c, woken).value, w.threads[t];
      var f := if th.at.Testing? then [Contents(w.queue)] + found else found;
      var a := if th.at == Waiting then [woken] + waits else waits;
      && |w'.threads| == |w.threads|
      && (CallFits(th.at, th.exclusive) ==> Rest(w'.threads[t], w'.queue, found, waits).res == Rest(th, w.queue, f, a).res)
  {
  }

  lemma {:induction false} OwnGot(w: World, t: nat, c: Call, woken: bool, found: seq<seq<Event>>, waits: seq<bool>)
    requires LocksOk(w) && t < |w.threads| && Step(w, t, c, woken).Some? && w.threads[t].at != Idle
    ensures var w', th := Step(w, t, c, woken).value, w.threads[t];
      var f := if th.at.Testing? then [Contents(w.queue)] + found else found;
      var a := if th.at == Waiting then [woken] + waits else waits;
      && |w'.threads| == |w.threads|
      && GotBy(w'.got, t) + Given(Rest(w'.threads[t], w'.queue, found, waits)) == GotBy(w.got, t) + Given(Rest(th, w.queue, f, a))
  {
    assert Agree(w, t);
    StepDelivers(w, t, c, woken);
    if w.threads[t].at == Removing {
      RemoveGot(w, t, c, woken, found, waits);
    } else {
      OwnResult(w, t, c, woken, found, waits);
      hide Step, Rest, Alternate;
    }
  }

  lemma {:induction false} RemoveGot(w: World, t: nat, c: Call, woken: bool, found: seq<seq<Event>>, waits: seq<bool>)
    requires t < |w.threads| && Step(w, t, c, woken).Some? && w.threads[t].at == Removing
    ensures var w', th := Step(w, t, c, woken).value, w.threads[t];
      && |w'.threads| == |w.threads|
      && GotBy(w'.got, t) + Given(Rest(w'.threads[t], w'.queue, found, waits)) == GotBy(w.got, t) + Given(Rest(th, w.queue, found, waits))
  {
    GotOneMore(w.got, Delivery(t, w.threads[t].res.value), t);
  }

  /** A step of another thread does not touch it. */
  lemma {:induction false} OtherStep(w: World, t: nat, u: nat, c: Call, woken: bool, found: seq<seq<Event>>, waits: seq<bool>)
    requires LocksOk(w) && t < |w.threads| && u < |w.threads| && u != t && Step(w, u, c, woken).Some?
    ensures var w' := Step(w, u, c, woken).value;
      && |w'.threads| == |w.threads| && w'.threads[t] == w.threads[t] && GotBy(w'.got, t) == GotBy(w.got, t)
      && Rest(w'.threads[t], w'.queue, found, waits) == Rest(w.threads[t], w.queue, found, waits)
  {
    assert Agree(w, t);
    TouchedOnlyWhenHeld(w, u, c, woken);
    StepIsOfOne(w, u, c, woken);
    StepDelivers(w, u, c, woken);
    if Step(w, u, c, woken).value.got != w.got { GotOneMore(w.got, Delivery(u, w.threads[u].res.value), t); }
    hide Step, Alternate;
  }

  /** From anywhere in a call to its end, in every interleaving: the calls on the lock and the
      event delivered are those of its course. */
  lemma {:induction false} CallTakesItsCourse(w: World, steps: seq<Choice>, t: nat)
    requires LocksOk(w) && t < |w.threads| && Run(w, steps).Some? && Asked(w, steps, t) == []
    requires t < |Run(w, steps).value.threads| && Run(w, steps).value.threads[t].at == Idle
    ensures var w', course := Run(w, steps).value, Rest(w.threads[t], w.queue, FoundIn(w, steps, t), WaitsIn(w, steps, t));
      && w'.threads[t].ops == w.threads[t].ops + course.ops
      && GotBy(w'.got, t) == GotBy(w.got, t) + Given(course)
    decreases |steps|
  {
    hide LocksOk, Rest, Step;
    if steps == [] {
      NothingLeft(w.threads[t], w.queue, [], []);
    } else {
      var s := steps[0];
      var w' := Step(w, s.t, s.c, s.woken).value;
      var found, waits := FoundIn(w', steps[1..], t), WaitsIn(w', steps[1..], t);
      StepKeepsLocks(w, s.t, s.c, s.woken);
      StepIsOfOne(w, s.t, s.c, s.woken);
      CallTakesItsCourse(w', steps[1..], t);
      if s.t == t {
        OwnOps(w, t, s.c, s.woken, found, waits);
        OwnGot(w, t, s.c, s.woken, found, waits);
      } else {
        OtherStep(w, t, s.t, s.c, s.woken, found, waits);
      }
      assert [] + found == found && [] + waits == waits;
    }
  }

  lemma NothingLeft(th: Thread, now: seq<Item>, found: seq<seq<Event>>, waits: seq<bool>)
    requires th.at == Idle
    ensures Rest(th, now, found, waits) == Course(None, [])
  {
  }

  /** A call from its beginning to its end. */
  lemma {:induction false} CallIsWhole(w: World, steps: seq<Choice>, t: nat)
    requires LocksOk(w) && t < |w.threads| && steps != [] && steps[0].t == t && w.threads[t].at == Idle
    requires Run(w, steps).Some? && Asked(w, steps, t) == [steps[0].c]
    requires t < |Run(w, steps).value.threads| && Run(w, steps).value.threads[t].at == Idle
    ensures var w', course := Run(w, steps).value, Whole(steps[0].c, FoundIn(w, steps, t), WaitsIn(w, steps, t));
      && w'.threads[t].ops == w.threads[t].ops + course.ops
      && GotBy(w'.got, t) == GotBy(w.got, t) + Given(course)
  {
    var c := steps[0].c;
    var w' := Step(w, t, c, steps[0].woken).value;
    StepKeepsLocks(w, t, c, steps[0].woken);
    assert w'.threads[t].at == Entering(c) && w'.threads[t].ops == w.threads[t].ops && w'.got == w.got;
    hide LocksOk, Step;
    assert Asked(w', steps[1..], t) == [];
    assert [] + FoundIn(w', steps[1..], t) == FoundIn(w', steps[1..], t);
    assert [] + WaitsIn(w', steps[1..], t) == WaitsIn(w', steps[1..], t);
    CallTakesItsCourse(w', steps[1..], t);
  }
}

/** The calls of one thread as the source writes them, on scopedlock and scopedunlock objects.
    What the other threads do shows in the content of the queue each time the lock is got. */
module EventSections {
  import opened Wrappers
  import opened PendingEvents
  import opened EventThreads
  import opened EventTraces

  /** lock<value>, seen by one thread: found is what it finds in turn. */
  class LockedQueue {
    const found: seq<seq<Event>>
    var turn: nat
    var o: seq<Event>
    var held: bool
    var ops: seq<Op>

    constructor (found: seq<seq<Event>>)
      ensures this.found == found && turn == 0 && o == [] && !held && ops == []
    {
      this.found := found;
      turn, o, held, ops := 0, [], false, [];
    }

    function Found(k: nat): seq<Event> {
      if k < |found| then found[k] else []
    }

    /** What is still to be found from the k-th time on. */
    function FoundFrom(k: nat): seq<seq<Event>> {
      if k < |found| then found[k..] else []
    }

    predicate Valid()
      reads this
    {
      Alternate(ops, held)
    }

    method Lockw()
      requires Valid() && !held
      modifies this
      ensures Valid() && held && turn == old(turn) + 1 && o == Found(old(turn)) && ops == old(ops) + [LockW]
    {
      o, held, turn, ops := Found(turn), true, turn + 1, ops + [LockW];
    }

    method Unlock()
      requires Valid() && held
      modifies this`held, this`ops
      ensures Valid() && !held && ops == old(ops) + [Op.Unlock]
    {
      held, ops := false, ops + [Op.Unlock];
    }
  }

  /** scopedlock, for writing; Close is the destructor. */
  class ScopedLock {
    const thelock: LockedQueue
    var locked: bool

    predicate Valid()
      reads this, thelock
    {
      thelock.Valid() && locked == thelock.held
    }

    constructor (inlock: LockedQueue)
      requires inlock.Valid() && !inlock.held
      modifies inlock
      ensures Valid() && thelock == inlock && locked && inlock.turn == old(inlock.turn) + 1
      ensures inlock.o == inlock.Found(old(inlock.turn)) && inlock.ops == old(inlock.ops) + [LockW]
    {
      thelock, locked := inlock, false;
      new;
      Lock();
    }

    method Lock()
      requires Valid()
      modifies this, thelock
      ensures Valid() && locked
      ensures if old(locked) then unchanged(thelock)
        else
          && thelock.turn == old(thelock.turn) + 1 && thelock.o == thelock.Found(old(thelock.turn))
          && thelock.ops == old(thelock.ops) + [LockW]
    {
      if !locked {
        thelock.Lockw();
        locked := true;
      }
    }

    method Unlock()
      requires Valid()
      modifies this, thelock`held, thelock`ops
      ensures Valid() && !locked
      ensures thelock.ops == old(thelock.ops) + if old(locked) then [Op.Unlock] else []
    {
      if locked {
        thelock.Unlock();
        locked := false;
      }
    }

    method Close()
      requires Valid()
      modifies this, thelock`held, thelock`ops
      ensures Valid() && !locked
      ensures thelock.ops == old(thelock.ops) + if old(locked) then [Op.Unlock] else []
    {
      Unlock();
    }
  }

  /** scopedunlock, as breaksection makes it; Close is the destructor. */
  class ScopedUnlock {
    const target: ScopedLock
    var relocktarget: bool

    constructor (target: ScopedLock)
      requires target.Valid()
      modifies target, target.thelock`held, target.thelock`ops
      ensures this.target == target && !relocktarget && target.Valid() && !target.locked
      ensures target.thelock.ops == old(target.thelock.ops) + if old(target.locked) then [Op.Unlock] else []
    {
      this.target, relocktarget := target, false;
      new;
      target.Unlock();
    }

    method ShouldRelock()
      modifies this`relocktarget
      ensures relocktarget
    {
      relocktarget := true;
    }

    method Close()
      requires target.Valid() && !target.locked
      modifies target, target.thelock
      ensures target.Valid() && target.locked == relocktarget
      ensures if relocktarget
        then
          && target.thelock.turn == old(target.thelock.turn) + 1
          && target.thelock.o == target.thelock.Found(old(target.thelock.turn))
          && target.thelock.ops == old(target.thelock.ops) + [LockW]
        else unchanged(target.thelock)
    {
      if relocktarget { target.Lock(); }
    }
  }

  /** What waitevent leaves in the queue it found last, and how many it found. */
  function WaitLeaves(q: LockedQueue, turn: nat, waits: seq<bool>): (seq<Event>, nat)
    decreases |waits|
  {
    var now := q.Found(turn);
    if now != [] then (now[1..], turn + 1)
    else if waits == [] || !waits[0] then ([], turn + 1)
    else WaitLeaves(q, turn + 1, waits[1..])
  }

  /** What a receiving call still does, once it got the lock for the k-th time. */
  ghost function Still(q: LockedQueue, k: nat, c: Call, waits: seq<bool>): Course {
    AtTest(c, q.FoundFrom(k), waits)
  }

  lemma StillTakes(q: LockedQueue, k: nat, c: Call, waits: seq<bool>)
    requires q.Found(k) != []
    ensures Still(q, k, c, waits) == Course(Some(q.Found(k)[0]), [Op.Unlock])
  {
  }

  lemma RoundOps(ops: seq<Op>, rest: Course)
    ensures var course := After(Op.Unlock, After(LockW, rest));
      Course(rest.res, (ops + [Op.Unlock, LockW]) + rest.ops) == Course(course.res, ops + course.ops)
  {
    assert (ops + [Op.Unlock, LockW]) + rest.ops == ops + ([Op.Unlock] + ([LockW] + rest.ops));
  }

  lemma FirstOps(ops: seq<Op>, rest: Course)
    ensures Course(rest.res, (ops + [LockW]) + rest.ops) == Course(After(LockW, rest).res, ops + After(LockW, rest).ops)
  {
  }

  lemma StillWaits(q: LockedQueue, k: nat, c: Call, waits: seq<bool>)
    requires q.Found(k) == []
    ensures Still(q, k, c, waits) ==
      if c != Wait || waits == [] || !waits[0] then Course(None, [Op.Unlock])
      else After(Op.Unlock, After(LockW, Still(q, k + 1, c, waits[1..])))
  {
    var now := q.FoundFrom(k);
    assert q.FoundFrom(k + 1) == if now == [] then [] else now[1..];
    assert AtTest(c, now, waits) == AtBreak(c, q.FoundFrom(k + 1), waits);
  }

  /** What a wait leaves behind, once it got the lock for the k-th time. */
  ghost function Leaves(q: LockedQueue, k: nat, waits: seq<bool>): (seq<Event>, nat) {
    WaitLeaves(q, k, waits)
  }

  lemma LeavesNext(q: LockedQueue, k: nat, waits: seq<bool>)
    ensures Leaves(q, k, waits) == WaitLeaves(q, k, waits)
    ensures Leaves(q, k, waits) ==
      if q.Found(k) != [] then (q.Found(k)[1..], k + 1)
      else if waits == [] || !waits[0] then ([], k + 1)
      else Leaves(q, k + 1, waits[1..])
  {
  }

  lemma WholeIsStill(q: LockedQueue, k: nat, c: Call, waits: seq<bool>)
    requires c == Wait || c == Take
    ensures Whole(c, q.FoundFrom(k), waits) == After(LockW, Still(q, k, c, waits))
  {
  }

  /** What a wait found last is the event it comes to and what it leaves behind. */
  lemma {:induction false} WaitTakesOne(q: LockedQueue, k: nat, waits: seq<bool>)
    ensures var (left, n) := WaitLeaves(q, k, waits);
      k < n && q.Found(n - 1) == Given(Whole(Wait, q.FoundFrom(k), waits)) + left
    decreases |waits|
  {
    WholeIsStill(q, k, Wait, waits);
    if q.Found(k) != [] {
      StillTakes(q, k, Wait, waits);
    } else {
      StillWaits(q, k, Wait, waits);
      if waits != [] && waits[0] {
        WaitTakesOne(q, k + 1, waits[1..]);
        WholeIsStill(q, k + 1, Wait, waits[1..]);
      }
    }
    hide Whole, Still;
  }

  class EventQ {
    const ipc: LockedQueue

    constructor (ipc: LockedQueue)
      ensures this.ipc == ipc
    {
      this.ipc := ipc;
    }

    method Send(tp: string, ev: Event, urgent: bool)
      requires ipc.Valid() && !ipc.held
      modifies ipc
      ensures ipc.Valid() && !ipc.held
      ensures var was, sent := ipc.Found(old(ipc.turn)), Event(tp, ev.body);
        ipc.o == if urgent then [sent] + was else was + [sent]
      ensures ipc.ops == old(ipc.ops) + Whole(Call.Send(ev, tp, urgent), [], []).ops
    {
      var section := new ScopedLock(ipc);
      if urgent {
        ipc.o := [ev] + ipc.o;
        ipc.o := ipc.o[0 := ipc.o[0].(kind := tp)];
      } else {
        ipc.o := ipc.o + [ev];
        ipc.o := ipc.o[|ipc.o| - 1 := ipc.o[|ipc.o| - 1].(kind := tp)];
      }
      section.Close();
    }

    /** breaksection around a wait that returns woken. */
    method BreakSection(section: ScopedLock, woken: bool)
      requires section.thelock == ipc && section.Valid() && section.locked
      modifies section, ipc
      ensures section.Valid() && section.locked == woken
      ensures ipc.ops == old(ipc.ops) + if woken then [Op.Unlock, LockW] else [Op.Unlock]
      ensures if woken then ipc.turn == old(ipc.turn) + 1 && ipc.o == ipc.Found(old(ipc.turn))
        else ipc.turn == old(ipc.turn) && ipc.o == old(ipc.o)
    {
      hide Alternate;
      var unlocked := new ScopedUnlock(section);
      if woken { unlocked.ShouldRelock(); }
      unlocked.Close();
    }

    /** waits are the results of event.wait, false once they run out. */
    method WaitEvent(waits: seq<bool>) returns (res: Option<Event>)
      requires ipc.Valid() && !ipc.held
      modifies ipc
      ensures ipc.Valid() && !ipc.held && (ipc.o, ipc.turn) == WaitLeaves(ipc, old(ipc.turn), waits)
      ensures var course := Whole(Wait, ipc.FoundFrom(old(ipc.turn)), waits);
        res == course.res && ipc.ops == old(ipc.ops) + course.ops
    {
      hide Still, Leaves, Alternate;
      LeavesNext(ipc, ipc.turn, waits);
      WholeIsStill(ipc, ipc.turn, Wait, waits);
      ghost var course := Whole(Wait, ipc.FoundFrom(ipc.turn), waits);
      FirstOps(ipc.ops, Still(ipc, ipc.turn, Wait, waits));
      hide Whole, After;
      ghost var end := Course(course.res, ipc.ops + course.ops);
      var section := new ScopedLock(ipc);
      var round := 0;
      while ipc.o == []
        invariant fresh(section) && section.thelock == ipc && section.Valid() && section.locked && round <= |waits|
        invariant ipc.turn > 0 && ipc.o == ipc.Found(ipc.turn - 1)
        invariant Leaves(ipc, ipc.turn - 1, waits[round..]) == Leaves(ipc, old(ipc.turn), waits)
        invariant var still := Still(ipc, ipc.turn - 1, Wait, waits[round..]);
          Course(still.res, ipc.ops + still.ops) == end
        decreases |waits| - round
      {
        StillWaits(ipc, ipc.turn - 1, Wait, waits[round..]);
        LeavesNext(ipc, ipc.turn - 1, waits[round..]);
        assert round < |waits| ==> waits[round..][0] == waits[round] && waits[round..][1..] == waits[round + 1..];
        var woken := round < |waits| && waits[round];
        if woken { RoundOps(ipc.ops, Still(ipc, ipc.turn, Wait, waits[round + 1..])); }
        BreakSection(section, woken);
        if !woken {
          section.Close();
          return None;
        }
        round := round + 1;
      }
      StillTakes(ipc, ipc.turn - 1, Wait, waits[round..]);
      LeavesNext(ipc, ipc.turn - 1, waits[round..]);
      res := Some(ipc.o[0]);
      ipc.o := ipc.o[1..];
      section.Close();
    }

    method NextEvent() returns (res: Option<Event>)
      requires ipc.Valid() && !ipc.held
      modifies ipc
      ensures ipc.Valid() && !ipc.held
      ensures var was := ipc.Found(old(ipc.turn));
        ipc.o == if was == [] then [] else was[1..]
      ensures var course := Whole(Take, ipc.FoundFrom(old(ipc.turn)), []);
        res == course.res && ipc.ops == old(ipc.ops) + course.ops
    {
      hide Still, Whole, Alternate;
      WholeIsStill(ipc, ipc.turn, Take, []);
      ghost var k := ipc.turn;
      var section := new ScopedLock(ipc);
      if ipc.o == [] {
        StillWaits(ipc, k, Take, []);
        var unlocked := new ScopedUnlock(section);
        unlocked.Close();
        section.Close();
        return None;
      }
      StillTakes(ipc, k, Take, []);
      res := Some(ipc.o[0]);
      ipc.o := ipc.o[1..];
      section.Close();
    }
  }
}
