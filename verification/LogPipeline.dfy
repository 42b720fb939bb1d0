/**
 From a call of log to a line in a file: the daemon's sends (src/libgrace/daemon.cpp) go
 through the event queue (src/libgrace/eventq.cpp) in any interleaving of the threads.
 */
module LogPipeline {
  import opened Logs
  import LogThreads
  import opened LogDaemon
  import Pending = PendingEvents
  import Threads = EventThreads
  import Roles = EventRoles

  /** sendevent; put makes the body of an event from a message. */
  function Sending(put: Message -> string, e: Event): Threads.Call {
    match e
    case Die => Threads.Send(Pending.Event("", ""), "die", false)
    case Log(m) => Threads.Send(Pending.Event("", put(m)), "logmessage", false)
  }

  function Sendings(put: Message -> string, events: seq<Event>): (r: seq<Threads.Call>)
    ensures |r| == |events| && forall i :: 0 <= i < |r| ==> r[i] == Sending(put, events[i])
  {
    seq(|events|, i requires 0 <= i < |events| => Sending(put, events[i]))
  }

  /** What the log thread makes of the event it gets. */
  function Understood(read: string -> Message, e: Pending.Event): Event {
    if e.kind == "die" then Die else Log(read(e.body))
  }

  function Received(read: string -> Message, got: seq<Threads.Delivery>): (r: seq<Event>)
    ensures |r| == |got| && forall k :: 0 <= k < |r| ==> r[k] == Understood(read, got[k].item.event)
  {
    seq(|got|, k requires 0 <= k < |got| => Understood(read, got[k].item.event))
  }

  lemma {:induction false} SendingsAreNormal(put: Message -> string, events: seq<Event>)
    ensures var sends := Roles.SendsOf(Sendings(put, events));
      && |sends| == |events|
      && forall i :: 0 <= i < |sends| ==>
        && !sends[i].urgent
        && sends[i].event.kind == (if events[i].Die? then "die" else "logmessage")
        && (events[i].Log? ==> sends[i].event.body == put(events[i].m))
  {
    if events != [] {
      SendingsAreNormal(put, events[1..]);
      assert Sendings(put, events)[1..] == Sendings(put, events[1..]);
    }
  }

  /** Thread d is asked to send the events, and is the only one that sends; the log thread r
      is the only one that receives. */
  ghost predicate Carries(n: nat, steps: seq<Threads.Choice>, d: nat, r: nat, put: Message -> string, events: seq<Event>) {
    && d < n && Threads.Run(Threads.Fresh(n), steps).Some? && Roles.Roles(Threads.Fresh(n), steps, d, r)
    && Roles.SendsOf(Roles.Asked(Threads.Fresh(n), steps, d)) == Roles.SendsOf(Sendings(put, events))
  }

  /** In every interleaving the log thread has received the first part of the events, and all
      of them when the queue is empty between two sends. */
  lemma {:induction false} LogThreadReceivesInOrder(
    n: nat, steps: seq<Threads.Choice>, d: nat, r: nat, put: Message -> string, read: string -> Message, events: seq<Event>)
    requires (forall m :: read(put(m)) == m) && Carries(n, steps, d, r, put, events)
    ensures var w := Threads.Run(Threads.Fresh(n), steps).value;
      && d < |w.threads| && (forall k :: 0 <= k < |w.got| ==> w.got[k].t == r)
      && Received(read, w.got) <= events
      && (w.queue == [] && w.threads[d].at == Threads.Idle ==> Received(read, w.got) == events)
  {
    SendingsAreNormal(put, events);
    Roles.OneSenderOneReceiver(n, steps, d, r);
    var w := Threads.Run(Threads.Fresh(n), steps).value;
    forall k | 0 <= k < |w.got| ensures Received(read, w.got)[k] == events[k] {
    }
  }

  lemma {:induction false} LinesOfPrefix(some: seq<Event>, events: seq<Event>, mask: Priority, padding: nat)
    requires some <= events
    ensures Lines(some, mask, padding) <= Lines(events, mask, padding)
    ensures Die in some ==> Lines(some, mask, padding) == Lines(events, mask, padding)
  {
    if some != [] {
      assert some[0] == events[0] && some[1..] <= events[1..];
      if some[0] != Die { LinesOfPrefix(some[1..], events[1..], mask, padding); }
    }
  }

  /** Whatever is logged before a stop, and called after it, and however the threads take
      turns: what the log thread gave a target that was there from the first message on is the
      first part of the lines it wants of the messages logged, and all of them once the thread
      was told to die. The target's files hold the last part of that and of what they held. */
  lemma {:induction false} LoggedIsWritten(
    n: nat, steps: seq<Threads.Choice>, d: nat, r: nat, put: Message -> string, read: string -> Message, events: seq<Event>,
    setup: Setup, calls: seq<Call>, after: seq<Call>, fs: seq<Files>, i: nat, padding: nat)
    requires (forall m :: read(put(m)) == m) && Carries(n, steps, d, r, put, events)
    requires Stop !in calls && Speaks(false, calls)
    requires var targets := FirstTargets(setup, calls);
      |fs| == |targets| && i < |targets| && targets[i].isFile && |fs[i].past| <= ROTATE
    requires events <= After(Stopped(After(Boot(), setup, calls)), setup, after).sent
    ensures var heard, targets := Received(read, Threads.Run(Threads.Fresh(n), steps).value.got), FirstTargets(setup, calls);
      var t := targets[i];
      var lines, wanted := Lines(heard, t.priorities, padding), WantedLines(Messages(calls), t.priorities, padding);
      && lines <= wanted && (Die in heard ==> lines == wanted)
      && EndsWith(t, fs[i], lines, LogThreads.FeedAll(targets, fs, heard, padding)[i])
  {
    hide Carries, EndsWith, FirstTargets;
    LogThreadReceivesInOrder(n, steps, d, r, put, read, events);
    assert Threads.Run(Threads.Fresh(n), steps).Some? by { CarriedRuns(n, steps, d, r, put, events); }
    var targets := FirstTargets(setup, calls);
    var heard := Received(read, Threads.Run(Threads.Fresh(n), steps).value.got);
    var sent := After(Stopped(After(Boot(), setup, calls)), setup, after).sent;
    StopAfterEverythingIsWritten(setup, calls, after, fs, i, padding);
    LinesOfPrefix(heard, sent, targets[i].priorities, padding);
    FedFilesEndWith(targets, fs, heard, padding, i);
  }

  lemma {:induction false} CarriedRuns(n: nat, steps: seq<Threads.Choice>, d: nat, r: nat, put: Message -> string, events: seq<Event>)
    requires Carries(n, steps, d, r, put, events)
    ensures Threads.Run(Threads.Fresh(n), steps).Some?
  {
  }
}
