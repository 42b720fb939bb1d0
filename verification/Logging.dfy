/**
 The logging pipeline of src/libgrace/daemon.cpp: the calls on the daemon, the log thread's
 targets and the rotation of its files.
 */
module Logs {

  /** log::priority, single levels and masks */
  type Priority = bv8

  const DEBUG: Priority := 0x01
  const INFO: Priority := 0x02
  const WARNING: Priority := 0x04
  const ERROR: Priority := 0x08
  const CRITICAL: Priority := 0x10
  const ALERT: Priority := 0x20
  const EMERGENCY: Priority := 0x40
  const APPLICATION: Priority := 0x80

  /** A log message, with the time at which the log thread handles it. */
  datatype Message = Message(priority: Priority, unit: string, text: string, stamp: string)

  /** What the log thread receives. */
  datatype Event = Log(m: Message) | Die

  function Pad(s: string, n: nat): (r: string)
    ensures |r| == n
  {
    if n <= |s| then s[..n] else s + seq(n - |s|, _ => ' ')
  }

  function LevelName(p: Priority): string {
    if p & EMERGENCY != 0 then "EMERG"
    else if p & ALERT != 0 then "ALERT"
    else if p & CRITICAL != 0 then "CRITC"
    else if p & ERROR != 0 then "ERROR"
    else if p & WARNING != 0 then "WARN "
    else if p & INFO != 0 then "INFO "
    else if p & APPLICATION != 0 then "APPL "
    else "DEBUG"
  }

  function Line(m: Message, padding: nat): string {
    m.stamp + " " + Pad(m.unit, padding) + " [" + LevelName(m.priority) + "]: " + m.text
  }

  predicate Wanted(m: Message, mask: Priority) {
    m.priority & mask != 0
  }

  /** The lines a file target is to get: those its mask lets through, until the thread is
      told to die. */
  function Lines(events: seq<Event>, mask: Priority, padding: nat): seq<string> {
    if events == [] || events[0] == Die then []
    else (if Wanted(events[0].m, mask) then [Line(events[0].m, padding)] else []) + Lines(events[1..], mask, padding)
  }

  /** defaults::lim::logrotate and defaults::sz::logfile */
  const ROTATE := 4
  const LOG_SIZE := 2 * 1024 * 1024

  function Limit(maxsize: nat): nat {
    if maxsize != 0 then maxsize else LOG_SIZE
  }

  function Bytes(lines: seq<string>): nat {
    if lines == [] then 0 else Bytes(lines[..|lines| - 1]) + |lines[|lines| - 1]| + 1
  }

  /** The files of one target: live, and past[k] under the name target.k. */
  datatype Files = Files(live: seq<string>, past: seq<seq<string>>)

  /** Writing one line, and rotating when that made the file too large. */
  function Written(f: Files, line: string, limit: nat): Files {
    var live := f.live + [line];
    if Bytes(live) <= limit then Files(live, f.past)
    else Files([], [live] + if |f.past| < ROTATE then f.past else f.past[..ROTATE - 1])
  }

  function WriteAll(f: Files, lines: seq<string>, limit: nat): Files
    decreases |lines|
  {
    if lines == [] then f else WriteAll(Written(f, lines[0], limit), lines[1..], limit)
  }

  /** The rotated files joined, oldest first. */
  function OldLines(past: seq<seq<string>>): seq<string> {
    if past == [] then [] else OldLines(past[1..]) + past[0]
  }

  function Kept(f: Files): seq<string> {
    OldLines(f.past) + f.live
  }

  /** What one write, and many, remove for good. */
  function Dropped(f: Files, line: string, limit: nat): seq<string> {
    if Bytes(f.live + [line]) > limit && |f.past| >= ROTATE then OldLines(f.past[ROTATE - 1..]) else []
  }

  function Lost(f: Files, lines: seq<string>, limit: nat): seq<string>
    decreases |lines|
  {
    if lines == [] then [] else Dropped(f, lines[0], limit) + Lost(Written(f, lines[0], limit), lines[1..], limit)
  }

  lemma {:induction false} OldInTwo(past: seq<seq<string>>, n: nat)
    requires n <= |past|
    ensures OldLines(past) == OldLines(past[n..]) + OldLines(past[..n])
  {
    if n > 0 {
      OldInTwo(past[1..], n - 1);
      assert past[1..][n - 1..] == past[n..];
      assert past[..n][1..] == past[1..][..n - 1];
    }
  }

  lemma WrittenDropsOnlyTheOldest(f: Files, line: string, limit: nat)
    ensures Dropped(f, line, limit) + Kept(Written(f, line, limit)) == Kept(f) + [line]
  {
    var live := f.live + [line];
    if Bytes(live) > limit {
      var n := if |f.past| < ROTATE then |f.past| else ROTATE - 1;
      OldInTwo(f.past, n);
      assert f.past[..|f.past|] == f.past;
      assert ([live] + f.past[..n])[1..] == f.past[..n];
      assert OldLines([live] + f.past[..n]) == OldLines(f.past[..n]) + live;
    }
  }

  /** Whatever was written, the files hold the last part of it, with nothing missing in
      between. */
  lemma {:induction false} KeptIsTheLastPart(f: Files, lines: seq<string>, limit: nat)
    ensures Lost(f, lines, limit) + Kept(WriteAll(f, lines, limit)) == Kept(f) + lines
    decreases |lines|
  {
    if lines != [] {
      var g := Written(f, lines[0], limit);
      WrittenDropsOnlyTheOldest(f, lines[0], limit);
      KeptIsTheLastPart(g, lines[1..], limit);
      var d, l, k := Dropped(f, lines[0], limit), Lost(g, lines[1..], limit), Kept(WriteAll(g, lines[1..], limit));
      assert lines == [lines[0]] + lines[1..];
      Regroup(d, l, k, Kept(g), Kept(f), lines[0], lines[1..]);
    } else {
      assert Kept(f) + lines == Kept(f);
    }
  }

  lemma Regroup(d: seq<string>, l: seq<string>, k: seq<string>, g: seq<string>, f: seq<string>, line: string, rest: seq<string>)
    requires d + g == f + [line] && l + k == g + rest
    ensures (d + l) + k == f + ([line] + rest)
  {
    assert (d + l) + k == d + (l + k);
    assert d + (g + rest) == (d + g) + rest;
    assert (f + [line]) + rest == f + ([line] + rest);
  }

  /** A rotated file is one line too large, the live one is not too large. */
  ghost predicate Sized(f: Files, limit: nat) {
    && Bytes(f.live) <= limit && |f.past| <= ROTATE
    && forall k :: 0 <= k < |f.past| ==> f.past[k] != [] && Bytes(f.past[k]) > limit >= Bytes(f.past[k][..|f.past[k]| - 1])
  }

  /** Lines are lost only when there are already four rotated files; those that were made
      here are each one line over the limit. */
  lemma {:induction false} LossMeansFullFiles(f: Files, lines: seq<string>, limit: nat)
    requires |f.past| <= ROTATE
    ensures |f.past| <= |WriteAll(f, lines, limit).past| <= ROTATE
    ensures Lost(f, lines, limit) != [] ==> |WriteAll(f, lines, limit).past| == ROTATE
    ensures Sized(f, limit) ==> Sized(WriteAll(f, lines, limit), limit)
    decreases |lines|
  {
    if lines != [] {
      var g := Written(f, lines[0], limit);
      assert (f.live + [lines[0]])[..|f.live|] == f.live;
      assert Sized(f, limit) ==> Sized(g, limit);
      LossMeansFullFiles(g, lines[1..], limit);
    }
  }
}

/** The log thread. */
module LogThreads {
  import opened Wrappers
  import opened Logs

  /** logtarget: a file, or syslog */
  datatype Target = Target(isFile: bool, target: string, priorities: Priority, maxsize: nat)

  /** The names a file target uses: its own, and target.0 to target.3. */
  function Name(target: string, j: nat): string
    requires j <= ROTATE
  {
    if j == 0 then target else target + ['.', "0123"[j - 1]]
  }

  lemma NamesDiffer(target: string, i: nat, j: nat)
    requires i < j <= ROTATE
    ensures Name(target, i) != Name(target, j)
  {
    var m, n := Name(target, i), Name(target, j);
    assert n[|n| - 1] == "0123"[j - 1];
    if i > 0 { assert m[|m| - 1] == "0123"[i - 1]; }
  }

  predicate InFamily(target: string, name: string) {
    exists j :: 0 <= j <= ROTATE && name == Name(target, j)
  }

  type FileMap = map<string, seq<string>>

  function Content(files: FileMap, name: string): Option<seq<string>> {
    if name in files then Some(files[name]) else None
  }

  /** What is to be found under the j-th name. */
  function Slot(f: Files, j: nat): Option<seq<string>> {
    if j == 0 then Some(f.live) else if j - 1 < |f.past| then Some(f.past[j - 1]) else None
  }

  ghost predicate Shows(files: FileMap, target: string, f: Files) {
    |f.past| <= ROTATE && forall j :: 0 <= j <= ROTATE ==> Content(files, Name(target, j)) == Slot(f, j)
  }

  /** Nothing but the files of target changed. */
  ghost predicate OnlyFamily(before: FileMap, after: FileMap, target: string) {
    forall name :: !InFamily(target, name) ==> Content(after, name) == Content(before, name)
  }

  /** No file of one target is a file of another. */
  ghost predicate Apart(targets: seq<Target>) {
    forall i, k, j ::
      0 <= i < |targets| && 0 <= k < |targets| && i != k && targets[i].isFile && targets[k].isFile && 0 <= j <= ROTATE ==>
      !InFamily(targets[i].target, Name(targets[k].target, j))
  }

  class Disk {
    var files: FileMap

    constructor ()
      ensures files == map[]
    {
      files := map[];
    }

    /** openappend */
    method Open(name: string)
      modifies this
      ensures files == if name in old(files) then old(files) else old(files)[name := []]
    {
      if name !in files { files := files[name := []]; }
    }

    /** fs.mv: no effect when there is no such file */
    method Rename(from: string, to: string)
      requires from != to
      modifies this
      ensures files == if from in old(files) then old(files)[to := old(files)[from]] - {from} else old(files)
    {
      if from in files { files := files[to := files[from]] - {from}; }
    }

    /** f.writeln */
    method WriteLine(name: string, line: string)
      requires name in files
      modifies this
      ensures files == old(files)[name := old(files)[name] + [line]]
    {
      files := files[name := files[name] + [line]];
    }
  }

  /** While the names from j + 1 on have been moved up. */
  ghost predicate MovedUp(files: FileMap, target: string, f: Files, j: int)
    requires -1 <= j < ROTATE
  {
    forall i :: 0 <= i <= ROTATE ==> Content(files, Name(target, i)) == SlotMovedUp(f, j, i)
  }

  function SlotMovedUp(f: Files, j: int, i: nat): Option<seq<string>>
    requires j >= -1
  {
    if i <= j then Slot(f, i)
    else if i > j + 1 then Slot(f, i - 1)
    else if i == ROTATE then Slot(f, i)
    else None
  }

  lemma MoveUp(files: FileMap, target: string, f: Files, j: nat)
    requires j < ROTATE && MovedUp(files, target, f, j) && |f.past| <= ROTATE
    ensures var from, to := Name(target, j), Name(target, j + 1);
      var after := if from in files then files[to := files[from]] - {from} else files;
      MovedUp(after, target, f, j - 1) && OnlyFamily(files, after, target)
  {
    var from, to := Name(target, j), Name(target, j + 1);
    var after := if from in files then files[to := files[from]] - {from} else files;
    assert Content(files, from) == Slot(f, j);
    forall i | 0 <= i <= ROTATE && i != j && i != j + 1
      ensures Name(target, i) != from && Name(target, i) != to
    {
      if i < j {
        NamesDiffer(target, i, j);
        NamesDiffer(target, i, j + 1);
      } else {
        NamesDiffer(target, j, i);
        NamesDiffer(target, j + 1, i);
      }
    }
    NamesDiffer(target, j, j + 1);
    assert InFamily(target, from) && InFamily(target, to);
  }

  /** Opening the live file again after the last rename. */
  lemma Reopened(files: FileMap, target: string, f: Files, after: FileMap)
    requires MovedUp(files, target, f, -1) && |f.past| <= ROTATE && after == files[target := []]
    ensures target !in files
    ensures Shows(after, target, Files([], [f.live] + if |f.past| < ROTATE then f.past else f.past[..ROTATE - 1]))
    ensures OnlyFamily(files, after, target)
  {
    assert Name(target, 0) == target && Content(files, target) == None;
    assert InFamily(target, target);
    forall j | 1 <= j <= ROTATE
      ensures Content(after, Name(target, j)) == Slot(f, j - 1)
    {
      NamesDiffer(target, 0, j);
      assert Content(files, Name(target, j)) == SlotMovedUp(f, -1, j);
    }
  }

  lemma Appended(files: FileMap, target: string, f: Files, line: string)
    requires Shows(files, target, f)
    ensures target in files
    ensures var after := files[target := files[target] + [line]];
      Shows(after, target, f.(live := f.live + [line])) && OnlyFamily(files, after, target)
  {
    assert Name(target, 0) == target && InFamily(target, target);
    assert Content(files, target) == Slot(f, 0);
    var after := files[target := files[target] + [line]];
    forall j | 1 <= j <= ROTATE
      ensures Content(after, Name(target, j)) == Slot(f, j)
    {
      NamesDiffer(target, 0, j);
    }
  }

  /** The loop over the old files, and the new live file. */
  method Rotate(disk: Disk, target: string, ghost f: Files)
    requires Shows(disk.files, target, f)
    modifies disk
    ensures Shows(disk.files, target, Files([], [f.live] + if |f.past| < ROTATE then f.past else f.past[..ROTATE - 1]))
    ensures OnlyFamily(old(disk.files), disk.files, target)
  {
    ghost var was := disk.files;
    var ii := ROTATE - 1;
    assert MovedUp(disk.files, target, f, ii);
    while ii >= 0
      invariant -1 <= ii < ROTATE && MovedUp(disk.files, target, f, ii) && OnlyFamily(was, disk.files, target)
    {
      MoveUp(disk.files, target, f, ii);
      NamesDiffer(target, ii, ii + 1);
      hide MovedUp;
      disk.Rename(Name(target, ii), Name(target, ii + 1));
      ii := ii - 1;
    }
    Reopened(disk.files, target, f, disk.files[target := []]);
    hide MovedUp, Shows;
    disk.Open(target);
  }

  /** A line for a file target. */
  method WriteTo(disk: Disk, t: Target, line: string, ghost f: Files)
    requires Shows(disk.files, t.target, f)
    modifies disk
    ensures Shows(disk.files, t.target, Written(f, line, Limit(t.maxsize)))
    ensures OnlyFamily(old(disk.files), disk.files, t.target)
  {
    Appended(disk.files, t.target, f, line);
    ghost var g := f.(live := f.live + [line]);
    disk.WriteLine(t.target, line);
    assert disk.files[t.target] == g.live by {
      assert Name(t.target, 0) == t.target && Content(disk.files, t.target) == Slot(g, 0);
    }
    var pos := Bytes(disk.files[t.target]);
    if pos > Limit(t.maxsize) {
      Rotate(disk, t.target, g);
    }
  }

  /** What a message does to the files of one target, and of all. */
  function Fed(t: Target, f: Files, m: Message, padding: nat): Files {
    if t.isFile && Wanted(m, t.priorities) then Written(f, Line(m, padding), Limit(t.maxsize)) else f
  }

  function FedAll(targets: seq<Target>, fs: seq<Files>, m: Message, padding: nat): (r: seq<Files>)
    requires |fs| == |targets|
    ensures |r| == |fs|
  {
    FedUpTo(targets, fs, m, padding, |targets|)
  }

  function FedUpTo(targets: seq<Target>, fs: seq<Files>, m: Message, padding: nat, n: nat): (r: seq<Files>)
    requires |fs| == |targets|
    ensures |r| == |fs|
  {
    seq(|fs|, i requires 0 <= i < |fs| => if i < n then Fed(targets[i], fs[i], m, padding) else fs[i])
  }

  lemma FedOneMore(targets: seq<Target>, fs: seq<Files>, m: Message, padding: nat, i: nat)
    requires i < |fs| == |targets|
    ensures var some := FedUpTo(targets, fs, m, padding, i);
      some[i := Fed(targets[i], some[i], m, padding)] == FedUpTo(targets, fs, m, padding, i + 1)
  {
  }

  function FeedAll(targets: seq<Target>, fs: seq<Files>, events: seq<Event>, padding: nat): (r: seq<Files>)
    requires |fs| == |targets|
    ensures |r| == |fs|
    decreases |events|
  {
    if events == [] || events[0] == Die then fs
    else FeedAll(targets, FedAll(targets, fs, events[0].m, padding), events[1..], padding)
  }

  /** Each file target by itself gets its lines. */
  lemma {:induction false} EachTargetGetsItsLines(targets: seq<Target>, fs: seq<Files>, events: seq<Event>, padding: nat, i: nat)
    requires |fs| == |targets| && i < |fs| && targets[i].isFile
    ensures FeedAll(targets, fs, events, padding)[i] ==
      WriteAll(fs[i], Lines(events, targets[i].priorities, padding), Limit(targets[i].maxsize))
    decreases |events|
  {
    if events != [] && events[0] != Die {
      EachTargetGetsItsLines(targets, FedAll(targets, fs, events[0].m, padding), events[1..], padding, i);
      var line, rest := Line(events[0].m, padding), Lines(events[1..], targets[i].priorities, padding);
      if Wanted(events[0].m, targets[i].priorities) {
        assert ([line] + rest)[1..] == rest;
      } else {
        assert [] + rest == rest;
      }
    }
  }

  ghost predicate AllShow(files: FileMap, targets: seq<Target>, fs: seq<Files>) {
    |fs| == |targets| && forall i :: 0 <= i < |targets| && targets[i].isFile ==> Shows(files, targets[i].target, fs[i])
  }

  lemma OthersStillShow(before: FileMap, after: FileMap, targets: seq<Target>, fs: seq<Files>, i: nat, f: Files)
    requires AllShow(before, targets, fs) && Apart(targets) && i < |targets| && targets[i].isFile
    requires OnlyFamily(before, after, targets[i].target) && Shows(after, targets[i].target, f)
    ensures AllShow(after, targets, fs[i := f])
  {
    forall k | 0 <= k < |targets| && targets[k].isFile && k != i
      ensures Shows(after, targets[k].target, fs[k])
    {
      StillShows(before, after, targets[i].target, targets[k].target, fs[k]);
    }
  }

  /** openappend of a live file. */
  function WithLive(files: FileMap, target: string): FileMap {
    if target in files then files else files[target := []]
  }

  /** addlogtarget: the new target comes last, and goes on with the log it finds. */
  method AddLogTarget(disk: Disk, targets: seq<Target>, t: Target, ghost fs: seq<Files>, ghost f: Files) returns (all: seq<Target>)
    requires AllShow(disk.files, targets, fs) && Apart(targets + [t])
    requires t.isFile ==> Shows(WithLive(disk.files, t.target), t.target, f)
    modifies disk
    ensures all == targets + [t] && AllShow(disk.files, all, fs + [f])
    ensures disk.files == if t.isFile then WithLive(old(disk.files), t.target) else old(disk.files)
  {
    all := targets + [t];
    if t.isFile {
      ghost var before := disk.files;
      disk.Open(t.target);
      LiveIsInFamily(before, t.target);
      assert all[|targets|] == t;
      forall k | 0 <= k < |targets| && targets[k].isFile
        ensures Shows(disk.files, targets[k].target, fs[k])
      {
        assert all[k] == targets[k];
        StillShows(before, disk.files, t.target, targets[k].target, fs[k]);
      }
    }
  }

  lemma LiveIsInFamily(files: FileMap, target: string)
    ensures OnlyFamily(files, WithLive(files, target), target)
  {
    assert Name(target, 0) == target && InFamily(target, target);
  }

  lemma StillShows(before: FileMap, after: FileMap, changed: string, target: string, f: Files)
    requires Shows(before, target, f) && OnlyFamily(before, after, changed)
    requires forall j :: 0 <= j <= ROTATE ==> !InFamily(changed, Name(target, j))
    ensures Shows(after, target, f)
  {
  }

  /** The severity codes of RFC 5424, section 6.2.1. */
  function Severity(p: Priority): nat {
    if p & EMERGENCY != 0 then 0
    else if p & ALERT != 0 then 1
    else if p & CRITICAL != 0 then 2
    else if p & ERROR != 0 then 3
    else if p & WARNING != 0 then 4
    else if p & INFO != 0 then 6
    else if p & APPLICATION != 0 then 5
    else 7
  }

  datatype SysLine = SysLine(severity: nat, text: string)

  /** What a message sends to syslog: one line for each target of that kind that wants it. */
  function SysLines(targets: seq<Target>, m: Message): seq<SysLine> {
    if targets == [] then []
    else
      (if !targets[0].isFile && Wanted(m, targets[0].priorities) then [SysLine(Severity(m.priority), m.unit + ": " + m.text)] else [])
      + SysLines(targets[1..], m)
  }

  function SysLog(targets: seq<Target>, events: seq<Event>): seq<SysLine> {
    if events == [] || events[0] == Die then [] else SysLines(targets, events[0].m) + SysLog(targets, events[1..])
  }

  class LogThread {
    const targets: seq<Target>
    const padding: nat
    const disk: Disk
    var syslog: seq<SysLine>

    constructor (targets: seq<Target>, padding: nat, disk: Disk)
      ensures this.targets == targets && this.padding == padding && this.disk == disk && syslog == []
    {
      this.targets, this.padding, this.disk, syslog := targets, padding, disk, [];
    }

    /** One target of the inner loop. */
    method HandleAt(m: Message, i: nat, ghost fs: seq<Files>)
      requires i < |targets| && Apart(targets) && AllShow(disk.files, targets, fs)
      modifies disk, this`syslog
      ensures AllShow(disk.files, targets, fs[i := Fed(targets[i], fs[i], m, padding)])
      ensures syslog == old(syslog) + SysLines([targets[i]], m)
    {
      var tf := targets[i];
      OneSysLine(tf, m, syslog);
      hide Wanted, Severity, Written, Line, Limit, AllShow, Apart;
      if Wanted(m, tf.priorities) {
        if !tf.isFile {
          syslog := syslog + [SysLine(Severity(m.priority), m.unit + ": " + m.text)];
        } else {
          WriteOne(Line(m, padding), i, fs);
        }
      }
      assert fs[i := fs[i]] == fs;
    }

    method WriteOne(line: string, i: nat, ghost fs: seq<Files>)
      requires i < |targets| && targets[i].isFile && Apart(targets) && AllShow(disk.files, targets, fs)
      modifies disk
      ensures AllShow(disk.files, targets, fs[i := Written(fs[i], line, Limit(targets[i].maxsize))])
    {
      ghost var before := disk.files;
      WriteTo(disk, targets[i], line, fs[i]);
      OthersStillShow(before, disk.files, targets, fs, i, Written(fs[i], line, Limit(targets[i].maxsize)));
    }

    /** The inner loop: one message, all targets. */
    method Handle(m: Message, ghost fs: seq<Files>)
      requires Apart(targets) && AllShow(disk.files, targets, fs)
      modifies disk, this`syslog
      ensures AllShow(disk.files, targets, FedAll(targets, fs, m, padding))
      ensures syslog == old(syslog) + SysLines(targets, m)
    {
      ghost var end := syslog + SysLines(targets, m);
      assert FedUpTo(targets, fs, m, padding, 0) == fs && targets[0..] == targets;
      var i := 0;
      while i < |targets|
        invariant i <= |targets| && AllShow(disk.files, targets, FedUpTo(targets, fs, m, padding, i))
        invariant syslog + SysLines(targets[i..], m) == end
      {
        SysLinesOfNext(syslog, targets, m, i);
        FedOneMore(targets, fs, m, padding, i);
        hide AllShow, Apart, Fed, FedUpTo;
        HandleAt(m, i, FedUpTo(targets, fs, m, padding, i));
        i := i + 1;
      }
      assert targets[i..] == [];
    }

    /** run, given what waitevent returns in turn. */
    method Run(events: seq<Event>, ghost fs: seq<Files>)
      requires Apart(targets) && AllShow(disk.files, targets, fs)
      modifies disk, this`syslog
      ensures AllShow(disk.files, targets, FeedAll(targets, fs, events, padding))
      ensures syslog == old(syslog) + SysLog(targets, events)
    {
      ghost var now := fs;
      ghost var end := syslog + SysLog(targets, events);
      var k := 0;
      while k < |events| && events[k] != Die
        invariant k <= |events| && AllShow(disk.files, targets, now)
        invariant FeedAll(targets, now, events[k..], padding) == FeedAll(targets, fs, events, padding)
        invariant syslog + SysLog(targets, events[k..]) == end
      {
        assert events[k..][1..] == events[k + 1..];
        SysLogOfFirst(syslog, targets, events[k..]);
        Handle(events[k].m, now);
        now := FedAll(targets, now, events[k].m, padding);
        k := k + 1;
      }
    }
  }

  lemma {:induction false} OneSysLine(t: Target, m: Message, syslog: seq<SysLine>)
    ensures syslog + SysLines([t], m) ==
      if !t.isFile && Wanted(m, t.priorities) then syslog + [SysLine(Severity(m.priority), m.unit + ": " + m.text)] else syslog
  {
    assert [t][1..] == [];
  }

  lemma {:induction false} SysLinesOfNext(syslog: seq<SysLine>, targets: seq<Target>, m: Message, i: nat)
    requires i < |targets|
    ensures syslog + SysLines(targets[i..], m) == (syslog + SysLines([targets[i]], m)) + SysLines(targets[i + 1..], m)
  {
    assert [targets[i]][1..] == [] && targets[i..][1..] == targets[i + 1..];
  }

  lemma {:induction false} SysLogOfFirst(syslog: seq<SysLine>, targets: seq<Target>, events: seq<Event>)
    requires events != [] && events[0] != Die
    ensures syslog + SysLog(targets, events) == (syslog + SysLines(targets, events[0].m)) + SysLog(targets, events[1..])
  {
  }
}

/** The daemon's side: what is logged before and after it goes to the background. */
module LogDaemon {
  import opened Wrappers
  import opened Logs
  import opened LogThreads

  /** The names of priorities in the resource file, as the code spells them. */
  function PriorityOf(name: string): Priority {
    if name == "debug" then DEBUG
    else if name == "info" then INFO
    else if name == "warning" then WARNING
    else if name == "error" then ERROR
    else if name == "critical" then CRITICAL
    else if name == "alert" then ALERT
    else if name == "emergency" then EMERGENCY
    else if name == "appliation" then APPLICATION
    else if name == "allinfo" then 0xfe
    else if name == "allerror" then ERROR | CRITICAL | ALERT | EMERGENCY
    else if name == "all" then 0xff
    else 0
  }

  function Mask(names: seq<string>): Priority {
    if names == [] then 0 else PriorityOf(names[0]) | Mask(names[1..])
  }

  /** A target asks for application messages in vain, unless it misspells them or takes
      nearly all. */
  lemma {:induction false} ApplicationIsMisspelt(names: seq<string>)
    ensures Mask(names) & APPLICATION != 0 <==> "appliation" in names || "allinfo" in names || "all" in names
  {
    if names != [] {
      ApplicationIsMisspelt(names[1..]);
      var p, q := PriorityOf(names[0]), Mask(names[1..]);
      OrHas(p, q);
      assert names == [names[0]] + names[1..];
      assert p & APPLICATION != 0 <==> names[0] == "appliation" || names[0] == "allinfo" || names[0] == "all";
    }
  }

  lemma OrHas(p: Priority, q: Priority)
    ensures (p | q) & APPLICATION != 0 <==> p & APPLICATION != 0 || q & APPLICATION != 0
  {
    assert (p | q) & APPLICATION == (p & APPLICATION) | (q & APPLICATION);
  }

  /** An entry of the resource file's list of logs. */
  datatype LogDef = LogDef(kind: string, target: string, maxsize: Option<nat>, priorities: seq<string>)

  function TargetOf(d: LogDef): Target {
    Target(d.kind != "syslog", d.target, Mask(d.priorities), if d.maxsize == None then 0 else d.maxsize.value)
  }

  function TargetsOf(log: seq<LogDef>): (r: seq<Target>)
    ensures |r| == |log| && forall i :: 0 <= i < |r| ==> r[i] == TargetOf(log[i])
  {
    seq(|log|, i requires 0 <= i < |log| => TargetOf(log[i]))
  }

  lemma {:induction false} MaskOfNext(names: seq<string>, i: nat, p: Priority)
    requires i < |names|
    ensures (p | PriorityOf(names[i])) | Mask(names[i + 1..]) == p | Mask(names[i..])
  {
    assert names[i..][1..] == names[i + 1..];
    var q, r := PriorityOf(names[i]), Mask(names[i + 1..]);
    assert (p | q) | r == p | (q | r);
  }

  /** Whether the daemon stays in the foreground, and what its resource file says of logs. */
  datatype Setup = Setup(foreground: bool, log: seq<LogDef>)

  datatype State = State(
    daemonized: bool, started: bool, dq: bool, backlog: seq<Message>, sent: seq<Event>, err: seq<string>, targets: seq<Target>)

  function Boot(): State {
    State(false, false, false, [], [], [], [])
  }

  function Events(ms: seq<Message>): (r: seq<Event>)
    ensures |r| == |ms| && forall i :: 0 <= i < |r| ==> r[i] == Log(ms[i])
  {
    if ms == [] then [] else [Log(ms[0])] + Events(ms[1..])
  }

  /** daemon::log */
  function Logged(s: State, setup: Setup, m: Message): State {
    var err := if !s.daemonized || (setup.foreground && m.priority == CRITICAL) then s.err + [m.unit + ": " + m.text] else s.err;
    if !s.daemonized then s.(backlog := s.backlog + [m], dq := true, err := err)
    else
      State(true, true, false, if s.dq then [] else s.backlog, s.sent + (if s.dq then Events(s.backlog) else []) + [Log(m)], err,
            if s.targets == [] then TargetsOf(setup.log) else s.targets)
  }

  /** stoplog: there is no log thread before the first message after daemonize. */
  function Stopped(s: State): State {
    if s.started then s.(sent := s.sent + [Die]) else s
  }

  class Daemon {
    const setup: Setup
    var daemonized: bool
    var started: bool
    var dq: bool
    var backlog: seq<Message>
    var sent: seq<Event>
    var err: seq<string>
    var targets: seq<Target>

    ghost function Now(): State
      reads this
    {
      State(daemonized, started, dq, backlog, sent, err, targets)
    }

    constructor (setup: Setup)
      ensures Now() == Boot() && this.setup == setup
    {
      this.setup := setup;
      daemonized, started, dq, backlog, sent, err, targets := false, false, false, [], [], [], [];
    }

    /** addlogtarget, but for its file. */
    method AddTarget(t: Target)
      modifies this`targets
      ensures Now() == old(Now()).(targets := old(targets) + [t])
    {
      targets := targets + [t];
    }

    method ReadMask(names: seq<string>) returns (p: Priority)
      ensures p == Mask(names)
    {
      p := 0;
      var i := 0;
      while i < |names|
        invariant i <= |names| && p | Mask(names[i..]) == Mask(names)
      {
        MaskOfNext(names, i, p);
        p := p | PriorityOf(names[i]);
        i := i + 1;
      }
    }

    /** The targets of the resource file. */
    method ReadTargets()
      requires targets == []
      modifies this`targets
      ensures targets == TargetsOf(setup.log)
    {
      var i := 0;
      while i < |setup.log|
        invariant i <= |setup.log| && targets == TargetsOf(setup.log)[..i]
      {
        var d := setup.log[i];
        var p := ReadMask(d.priorities);
        AddTarget(Target(d.kind != "syslog", d.target, p, if d.maxsize == None then 0 else d.maxsize.value));
        i := i + 1;
      }
    }

    method Daemonize()
      modifies this`daemonized
      ensures Now() == old(Now()).(daemonized := true)
    {
      daemonized := true;
    }

    /** The backlog goes to the log thread, in order. */
    method Flush()
      modifies this`sent, this`backlog, this`dq
      ensures sent == old(sent) + Events(old(backlog)) && backlog == [] && !dq
    {
      var i := 0;
      while i < |backlog|
        invariant i <= |backlog| && backlog == old(backlog) && sent == old(sent) + Events(backlog)[..i]
      {
        sent := sent + [Log(backlog[i])];
        i := i + 1;
      }
      backlog, dq := [], false;
    }

    method Write(m: Message)
      modifies this
      ensures Now() == Logged(old(Now()), setup, m)
    {
      if !daemonized || (setup.foreground && m.priority == CRITICAL) {
        err := err + [m.unit + ": " + m.text];
        if !daemonized {
          backlog := backlog + [m];
          dq := true;
          return;
        }
      }
      if targets == [] { ReadTargets(); }
      if !started { started := true; }
      if dq { Flush(); }
      sent := sent + [Log(m)];
    }

    method StopLog()
      modifies this`sent
      ensures Now() == Stopped(old(Now()))
    {
      if started { sent := sent + [Die]; }
    }
  }

  datatype Call = Write(m: Message) | AddTarget(t: Target) | Daemonize | Stop

  function After(s: State, setup: Setup, calls: seq<Call>): State
    decreases |calls|
  {
    if calls == [] then s
    else
      After(AfterOne(s, setup, calls[0]), setup, calls[1..])
  }

  function AfterOne(s: State, setup: Setup, call: Call): State {
    match call
    case Write(m) => Logged(s, setup, m)
    case AddTarget(t) => s.(targets := s.targets + [t])
    case Daemonize => s.(daemonized := true)
    case Stop => Stopped(s)
  }

  /** A message is logged after daemonize. */
  predicate Speaks(daemonized: bool, calls: seq<Call>)
    decreases |calls|
  {
    calls != [] && ((daemonized && calls[0].Write?) || Speaks(daemonized || calls[0] == Daemonize, calls[1..]))
  }

  lemma {:induction false} StartedMeansSpoke(s: State, setup: Setup, calls: seq<Call>)
    ensures After(s, setup, calls).started <==> s.started || Speaks(s.daemonized, calls)
    decreases |calls|
  {
    if calls != [] { StartedMeansSpoke(AfterOne(s, setup, calls[0]), setup, calls[1..]); }
  }

  function Added(calls: seq<Call>): seq<Target> {
    if calls == [] then [] else (if calls[0].AddTarget? then [calls[0].t] else []) + Added(calls[1..])
  }

  /** The targets added before the first message after daemonize. */
  function AddedFirst(daemonized: bool, calls: seq<Call>): seq<Target>
    decreases |calls|
  {
    if calls == [] || (daemonized && calls[0].Write?) then []
    else (if calls[0].AddTarget? then [calls[0].t] else []) + AddedFirst(daemonized || calls[0] == Daemonize, calls[1..])
  }

  /** What becomes of the targets: the resource file counts only when none was added before
      the first message after daemonize, and then its targets come first. */
  function TargetsAfter(had: seq<Target>, daemonized: bool, log: seq<LogDef>, calls: seq<Call>): seq<Target> {
    (if had == [] && Speaks(daemonized, calls) && AddedFirst(daemonized, calls) == [] then TargetsOf(log) else had) + Added(calls)
  }

  lemma AddedIsKept(had: seq<Target>, daemonized: bool, log: seq<LogDef>, calls: seq<Call>)
    requires calls != [] && calls[0].AddTarget?
    ensures TargetsAfter(had, daemonized, log, calls) == TargetsAfter(had + [calls[0].t], daemonized, log, calls[1..])
  {
    assert (had + [calls[0].t]) + Added(calls[1..]) == had + Added(calls);
  }

  lemma SpokenIsKept(had: seq<Target>, daemonized: bool, log: seq<LogDef>, calls: seq<Call>)
    requires calls != [] && calls[0].Write?
    ensures TargetsAfter(had, daemonized, log, calls) ==
      TargetsAfter(if daemonized && had == [] then TargetsOf(log) else had, daemonized, log, calls[1..])
  {
    assert [] + Added(calls[1..]) == Added(calls[1..]);
    hide TargetsOf;
  }

  lemma {:induction false} TargetsAreAddedOrRead(s: State, setup: Setup, calls: seq<Call>)
    ensures After(s, setup, calls).targets == TargetsAfter(s.targets, s.daemonized, setup.log, calls)
    decreases |calls|
  {
    hide TargetsAfter, TargetsOf;
    if calls == [] {
      assert TargetsAfter(s.targets, s.daemonized, setup.log, []) == s.targets by { NothingAdded(s.targets, s.daemonized, setup.log); }
    } else {
      TargetsAreAddedOrRead(AfterOne(s, setup, calls[0]), setup, calls[1..]);
      if calls[0].AddTarget? {
        AddedIsKept(s.targets, s.daemonized, setup.log, calls);
      } else if calls[0].Write? {
        SpokenIsKept(s.targets, s.daemonized, setup.log, calls);
      } else {
        OthersAddNothing(s.targets, s.daemonized, setup.log, calls);
      }
    }
  }

  lemma NothingAdded(had: seq<Target>, daemonized: bool, log: seq<LogDef>)
    ensures TargetsAfter(had, daemonized, log, []) == had
  {
  }

  lemma OthersAddNothing(had: seq<Target>, daemonized: bool, log: seq<LogDef>, calls: seq<Call>)
    requires calls != [] && (calls[0] == Daemonize || calls[0] == Stop)
    ensures TargetsAfter(had, daemonized, log, calls) ==
      TargetsAfter(had, daemonized || calls[0] == Daemonize, log, calls[1..])
  {
    assert [] + Added(calls[1..]) == Added(calls[1..]);
    hide TargetsOf;
  }

  function Messages(calls: seq<Call>): seq<Message> {
    if calls == [] then []
    else (if calls[0].Write? then [calls[0].m] else []) + Messages(calls[1..])
  }

  /** Until the log thread runs everything is in the backlog; then nothing is. */
  ghost predicate Holds(s: State, ms: seq<Message>) {
    && s.dq == (s.backlog != [])
    && (s.started ==> s.daemonized)
    && if s.started then s.backlog == [] && s.sent == Events(ms) else s.backlog == ms && s.sent == []
  }

  lemma {:induction false} EventsInTwo(a: seq<Message>, b: seq<Message>)
    ensures Events(a + b) == Events(a) + Events(b)
  {
  }

  lemma OneCallKeepsOrder(s: State, setup: Setup, done: seq<Message>, call: Call)
    requires Holds(s, done) && call != Stop
    ensures Holds(AfterOne(s, setup, call), done + if call.Write? then [call.m] else [])
  {
    hide TargetsOf;
    if call.Write? {
      EventsInTwo(done, [call.m]);
      assert Events([call.m]) == [Log(call.m)];
    } else {
      assert done + [] == done;
    }
  }

  lemma {:induction false} CallsKeepOrder(s: State, setup: Setup, done: seq<Message>, calls: seq<Call>)
    requires Holds(s, done) && Stop !in calls
    ensures Holds(After(s, setup, calls), done + Messages(calls))
    decreases |calls|
  {
    hide Holds, AfterOne;
    if calls == [] {
      assert done + [] == done;
    } else {
      var now := done + if calls[0].Write? then [calls[0].m] else [];
      OneCallKeepsOrder(s, setup, done, calls[0]);
      CallsKeepOrder(AfterOne(s, setup, calls[0]), setup, now, calls[1..]);
      assert done + Messages(calls) == now + Messages(calls[1..]);
    }
  }

  function WantedLines(ms: seq<Message>, mask: Priority, padding: nat): seq<string> {
    if ms == [] then []
    else (if Wanted(ms[0], mask) then [Line(ms[0], padding)] else []) + WantedLines(ms[1..], mask, padding)
  }

  lemma {:induction false} LinesUntilDie(ms: seq<Message>, more: seq<Event>, mask: Priority, padding: nat)
    ensures Lines(Events(ms) + [Die] + more, mask, padding) == WantedLines(ms, mask, padding)
  {
    if ms != [] {
      assert (Events(ms) + [Die] + more)[1..] == Events(ms[1..]) + [Die] + more;
      LinesUntilDie(ms[1..], more, mask, padding);
    }
  }

  lemma {:induction false} SentOnlyGrows(s: State, setup: Setup, calls: seq<Call>)
    ensures s.sent <= After(s, setup, calls).sent
    decreases |calls|
  {
    if calls != [] {
      SentOnlyGrows(AfterOne(s, setup, calls[0]), setup, calls[1..]);
    }
  }

  /** The targets when the first message after daemonize is logged, before the log thread
      handles any. */
  function FirstTargets(setup: Setup, calls: seq<Call>): seq<Target> {
    if AddedFirst(false, calls) == [] then TargetsOf(setup.log) else AddedFirst(false, calls)
  }

  lemma {:induction false} FirstMessage(s: State, setup: Setup, calls: seq<Call>) returns (k: nat)
    requires Speaks(s.daemonized, calls)
    ensures k < |calls| && calls[k].Write? && !Speaks(s.daemonized, calls[..k]) && After(s, setup, calls[..k]).daemonized
    ensures AddedFirst(s.daemonized, calls) == Added(calls[..k])
    decreases |calls|
  {
    if s.daemonized && calls[0].Write? {
      k := 0;
    } else {
      k := FirstMessage(AfterOne(s, setup, calls[0]), setup, calls[1..]);
      k := k + 1;
      assert calls[..k][0] == calls[0] && calls[..k][1..] == calls[1..][..k - 1];
    }
  }

  /** They are the targets of the daemon then, and stay its first ones. */
  lemma FirstTargetsAre(setup: Setup, calls: seq<Call>) returns (k: nat)
    requires Speaks(false, calls)
    ensures k < |calls| && calls[k].Write? && !Speaks(false, calls[..k]) && After(Boot(), setup, calls[..k]).daemonized
    ensures AfterOne(After(Boot(), setup, calls[..k]), setup, calls[k]).targets == FirstTargets(setup, calls)
    ensures FirstTargets(setup, calls) <= After(Boot(), setup, calls).targets
  {
    hide TargetsOf;
    k := FirstMessage(Boot(), setup, calls);
    TargetsAreAddedOrRead(Boot(), setup, calls[..k]);
    TargetsAreAddedOrRead(Boot(), setup, calls);
    FirstAreAdded(false, calls);
    assert [] + Added(calls[..k]) == Added(calls[..k]);
  }

  lemma {:induction false} FirstAreAdded(daemonized: bool, calls: seq<Call>)
    ensures AddedFirst(daemonized, calls) <= Added(calls)
    decreases |calls|
  {
    if calls != [] { FirstAreAdded(daemonized || calls[0] == Daemonize, calls[1..]); }
  }

  /** The files of the i-th target hold the last part of what they held and of the lines. */
  ghost predicate EndsWith(t: Target, f0: Files, lines: seq<string>, f: Files) {
    var limit := if t.maxsize == 0 then 2 * 1024 * 1024 else t.maxsize;
    var lost := Lost(f0, lines, limit);
    && Kept(f0) + lines == lost + Kept(f) && (lost != [] ==> |f.past| == ROTATE) && (Sized(f0, limit) ==> Sized(f, limit))
  }

  lemma {:induction false} FedFilesEndWith(targets: seq<Target>, fs: seq<Files>, events: seq<Event>, padding: nat, i: nat)
    requires |fs| == |targets| && i < |targets| && targets[i].isFile && |fs[i].past| <= ROTATE
    ensures EndsWith(targets[i], fs[i], Lines(events, targets[i].priorities, padding), FeedAll(targets, fs, events, padding)[i])
  {
    var t := targets[i];
    var lines := Lines(events, t.priorities, padding);
    EachTargetGetsItsLines(targets, fs, events, padding, i);
    KeptIsTheLastPart(fs[i], lines, Limit(t.maxsize));
    LossMeansFullFiles(fs[i], lines, Limit(t.maxsize));
  }

  /** Whatever is called, in whatever order, up to a stop: the log thread gives every target
      there was from the first message on the lines it wants of every message logged before
      the stop, those from before daemonize first. */
  lemma {:induction false} StopAfterEverythingIsWritten(setup: Setup, calls: seq<Call>, after: seq<Call>, fs: seq<Files>, i: nat, padding: nat)
    requires Stop !in calls && Speaks(false, calls)
    requires var targets := FirstTargets(setup, calls);
      |fs| == |targets| && i < |targets| && targets[i].isFile && |fs[i].past| <= ROTATE
    ensures var sent, targets := After(Stopped(After(Boot(), setup, calls)), setup, after).sent, FirstTargets(setup, calls);
      var t := targets[i];
      && Lines(sent, t.priorities, padding) == WantedLines(Messages(calls), t.priorities, padding)
      && EndsWith(t, fs[i], WantedLines(Messages(calls), t.priorities, padding), FeedAll(targets, fs, sent, padding)[i])
  {
    hide EndsWith, FirstTargets, Wanted, Line;
    var targets := FirstTargets(setup, calls);
    var more := SentBeforeStop(setup, calls, after);
    LinesUntilDie(Messages(calls), more, targets[i].priorities, padding);
    FedFilesEndWith(targets, fs, Events(Messages(calls)) + [Die] + more, padding, i);
  }

  lemma SentBeforeStop(setup: Setup, calls: seq<Call>, after: seq<Call>) returns (more: seq<Event>)
    requires Stop !in calls && Speaks(false, calls)
    ensures After(Stopped(After(Boot(), setup, calls)), setup, after).sent == Events(Messages(calls)) + [Die] + more
  {
    var s := Stopped(After(Boot(), setup, calls));
    SentUpToStop(setup, calls);
    SentOnlyGrows(s, setup, after);
    hide Stopped, Boot;
    more := After(s, setup, after).sent[|s.sent|..];
  }

  lemma {:induction false} SentUpToStop(setup: Setup, calls: seq<Call>)
    requires Stop !in calls && Speaks(false, calls)
    ensures Stopped(After(Boot(), setup, calls)).sent == Events(Messages(calls)) + [Die]
  {
    StartedMeansSpoke(Boot(), setup, calls);
    CallsKeepOrder(Boot(), setup, [], calls);
    assert [] + Messages(calls) == Messages(calls);
  }

  /** Messages from before daemonize stay unwritten when none follows it. */
  lemma {:induction false} BacklogNeedsOneMoreMessage(setup: Setup, calls: seq<Call>)
    requires Stop !in calls && !Speaks(false, calls)
    ensures var s := Stopped(After(Boot(), setup, calls)); s.sent == [] && s.backlog == Messages(calls)
  {
    StartedMeansSpoke(Boot(), setup, calls);
    CallsKeepOrder(Boot(), setup, [], calls);
    assert [] + Messages(calls) == Messages(calls);
  }
}
