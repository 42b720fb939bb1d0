/**
 What a log target gets, told by the names in the resource file and the levels of the messages
 (src/libgrace/daemon.cpp), and what a line shows.
 */
module LogLaws {
  import opened Wrappers
  import opened Logs
  import opened LogThreads
  import opened LogDaemon

  datatype Level = Debug | Info | Warning | Error | Critical | Alert | Emergency | Application

  /** The bit of log::priority, the name in the resource file, the tag in a line, and the
      severity code of RFC 5424, section 6.2.1. */
  function Bit(l: Level): Priority {
    match l
    case Debug => 0x01 case Info => 0x02 case Warning => 0x04 case Error => 0x08
    case Critical => 0x10 case Alert => 0x20 case Emergency => 0x40 case Application => 0x80
  }

  function NameOf(l: Level): string {
    match l
    case Debug => "debug" case Info => "info" case Warning => "warning" case Error => "error"
    case Critical => "critical" case Alert => "alert" case Emergency => "emergency" case Application => "appliation"
  }

  function Tag(l: Level): string {
    match l
    case Debug => "DEBUG" case Info => "INFO " case Warning => "WARN " case Error => "ERROR"
    case Critical => "CRITC" case Alert => "ALERT" case Emergency => "EMERG" case Application => "APPL "
  }

  function Code(l: Level): nat {
    match l
    case Debug => 7 case Info => 6 case Warning => 4 case Error => 3
    case Critical => 2 case Alert => 1 case Emergency => 0 case Application => 5
  }

  /** A name in the resource file asks for a level. */
  predicate AsksFor(name: string, l: Level) {
    || name == NameOf(l) || name == "all" || (name == "allinfo" && l != Debug)
    || (name == "allerror" && l in {Error, Critical, Alert, Emergency})
  }

  predicate Asked(names: seq<string>, l: Level) {
    exists name <- names :: AsksFor(name, l)
  }

  lemma NameAsks(name: string, l: Level)
    ensures PriorityOf(name) & Bit(l) != 0 <==> AsksFor(name, l)
  {
  }

  lemma OrMeets(p: Priority, q: Priority, bit: Priority)
    ensures (p | q) & bit != 0 <==> p & bit != 0 || q & bit != 0
  {
    assert (p | q) & bit == (p & bit) | (q & bit);
  }

  lemma {:induction false} MaskAsks(names: seq<string>, l: Level)
    ensures Mask(names) & Bit(l) != 0 <==> Asked(names, l)
  {
    hide AsksFor, PriorityOf, Bit;
    if names != [] {
      MaskAsks(names[1..], l);
      NameAsks(names[0], l);
      OrMeets(PriorityOf(names[0]), Mask(names[1..]), Bit(l));
      assert names == [names[0]] + names[1..];
    } else {
      NoBits(Bit(l));
    }
  }

  lemma NoBits(bit: Priority)
    ensures (0 as Priority) & bit == 0
  {
  }

  /** A message with its level. */
  datatype Said = Said(level: Level, unit: string, text: string, stamp: string)

  function MessageOf(s: Said): Message {
    Message(Bit(s.level), s.unit, s.text, s.stamp)
  }

  function EventsOf(said: seq<Said>): (r: seq<Event>)
    ensures |r| == |said|
  {
    if said == [] then [] else [Log(MessageOf(said[0]))] + EventsOf(said[1..])
  }

  /** The lines of the messages whose level is asked for. */
  function LinesAsked(said: seq<Said>, names: seq<string>, padding: nat): seq<string> {
    if said == [] then []
    else (if Asked(names, said[0].level) then [Line(MessageOf(said[0]), padding)] else []) + LinesAsked(said[1..], names, padding)
  }

  lemma {:induction false} LinesAreAsked(said: seq<Said>, d: LogDef, padding: nat)
    ensures Lines(EventsOf(said), TargetOf(d).priorities, padding) == LinesAsked(said, d.priorities, padding)
  {
    hide Line, Asked, Bit;
    if said != [] {
      var events := EventsOf(said);
      assert events[0] == Log(MessageOf(said[0])) && events[1..] == EventsOf(said[1..]);
      LinesAreAsked(said[1..], d, padding);
      MaskAsks(d.priorities, said[0].level);
    }
  }

  /** For messages of one level each, and targets as the resource file gives them: the files of
      each file target get the lines of the messages whose level its names ask for, in order, and
      no others. */
  lemma {:induction false} FilesGetWhatIsAsked(log: seq<LogDef>, fs: seq<Files>, said: seq<Said>, padding: nat, i: nat)
    requires |fs| == |log| && i < |log| && log[i].kind != "syslog"
    ensures var limit := if log[i].maxsize == None || log[i].maxsize == Some(0) then 2 * 1024 * 1024 else log[i].maxsize.value;
      FeedAll(TargetsOf(log), fs, EventsOf(said), padding)[i] == WriteAll(fs[i], LinesAsked(said, log[i].priorities, padding), limit)
  {
    hide Line, Asked, Bit;
    EachTargetGetsItsLines(TargetsOf(log), fs, EventsOf(said), padding, i);
    LinesAreAsked(said, log[i], padding);
  }

  /** And syslog gets one line for each of its entries that asks for the level. */
  function SyslogAsked(log: seq<LogDef>, s: Said): seq<SysLine> {
    if log == [] then []
    else
      (if log[0].kind == "syslog" && Asked(log[0].priorities, s.level) then [SysLine(Code(s.level), s.unit + ": " + s.text)] else [])
      + SyslogAsked(log[1..], s)
  }

  lemma CodeIsSeverity(l: Level)
    ensures Severity(Bit(l)) == Code(l) && LevelName(Bit(l)) == Tag(l)
  {
  }

  lemma {:induction false} SyslogGetsWhatIsAsked(log: seq<LogDef>, s: Said)
    ensures SysLines(TargetsOf(log), MessageOf(s)) == SyslogAsked(log, s)
  {
    hide Severity, Bit, Asked, Code;
    if log != [] {
      assert TargetsOf(log)[1..] == TargetsOf(log[1..]);
      SyslogGetsWhatIsAsked(log[1..], s);
      MaskAsks(log[0].priorities, s.level);
      CodeIsSeverity(s.level);
    }
  }

  function SyslogOf(log: seq<LogDef>, said: seq<Said>): seq<SysLine> {
    if said == [] then [] else SyslogAsked(log, said[0]) + SyslogOf(log, said[1..])
  }

  /** All that syslog gets, up to the stop. */
  lemma {:induction false} SyslogGetsAll(log: seq<LogDef>, said: seq<Said>, more: seq<Event>)
    ensures SysLog(TargetsOf(log), EventsOf(said)) == SyslogOf(log, said)
    ensures SysLog(TargetsOf(log), EventsOf(said) + [Die] + more) == SyslogOf(log, said)
  {
    hide Bit, Asked, Code;
    if said != [] {
      var events := EventsOf(said);
      assert events[0] == Log(MessageOf(said[0])) && events[1..] == EventsOf(said[1..]);
      assert (events + [Die] + more)[1..] == EventsOf(said[1..]) + [Die] + more;
      SyslogGetsWhatIsAsked(log, said[0]);
      SyslogGetsAll(log, said[1..], more);
    }
  }

  /** What can be read off a line: the time, the unit in its column, the level, and the text. */
  lemma LineShows(s: Said, padding: nat)
    ensures var line, column := Line(MessageOf(s), padding), |s.stamp| + 1;
      && |line| == column + padding + 2 + 5 + 3 + |s.text|
      && line[..|s.stamp|] == s.stamp && line[|s.stamp|] == ' '
      && (forall k :: 0 <= k < padding ==> line[column + k] == if k < |s.unit| then s.unit[k] else ' ')
      && line[column + padding..column + padding + 2] == " ["
      && line[column + padding + 2..column + padding + 7] == Tag(s.level)
      && line[column + padding + 7..column + padding + 10] == "]: "
      && line[column + padding + 10..] == s.text
  {
    CodeIsSeverity(s.level);
    var m, column := MessageOf(s), |s.stamp| + 1;
    var line, unit, tag := Line(m, padding), Pad(s.unit, padding), Tag(s.level);
    hide Tag, LevelName, Bit;
    TagsAreFive(s.level);
    assert line == s.stamp + " " + unit + " [" + tag + "]: " + s.text;
    assert forall k :: 0 <= k < padding ==> line[column + k] == unit[k];
  }

  lemma TagsAreFive(l: Level)
    ensures |Tag(l)| == 5
  {
  }

  /** What is written to the standard error: everything before daemonize, and after it, in the
      foreground, what is critical. */
  function Aloud(daemonized: bool, foreground: bool, calls: seq<Call>): seq<string>
    decreases |calls|
  {
    if calls == [] then []
    else
      (if calls[0].Write? && (!daemonized || (foreground && calls[0].m.priority == 0x10))
       then [calls[0].m.unit + ": " + calls[0].m.text] else [])
      + Aloud(daemonized || calls[0] == Daemonize, foreground, calls[1..])
  }

  lemma {:induction false} ErrIsAloud(s: State, setup: Setup, calls: seq<Call>)
    ensures After(s, setup, calls).err == s.err + Aloud(s.daemonized, setup.foreground, calls)
    decreases |calls|
  {
    hide TargetsOf;
    if calls != [] {
      var t := AfterOne(s, setup, calls[0]);
      ErrIsAloud(t, setup, calls[1..]);
      var rest := Aloud(t.daemonized, setup.foreground, calls[1..]);
      var one := if calls[0].Write? && (!s.daemonized || (setup.foreground && calls[0].m.priority == 0x10))
        then [calls[0].m.unit + ": " + calls[0].m.text] else [];
      assert t.err == s.err + one;
      assert (s.err + one) + rest == s.err + (one + rest);
    }
  }

  /** Lines as the file holds them. */
  function FileText(lines: seq<string>): string {
    if lines == [] then "" else lines[0] + "\n" + FileText(lines[1..])
  }

  lemma {:induction false} TextOfMore(lines: seq<string>, line: string)
    ensures FileText(lines + [line]) == FileText(lines) + line + "\n"
  {
    if lines == [] {
      assert [line][1..] == [] && lines + [line] == [line];
    } else {
      assert (lines + [line])[1..] == lines[1..] + [line];
      TextOfMore(lines[1..], line);
    }
  }

  /** The size that is compared with the limit is that of the file. */
  lemma {:induction false} BytesAreText(lines: seq<string>)
    ensures Bytes(lines) == |FileText(lines)|
  {
    if lines != [] {
      var n := |lines| - 1;
      assert lines == lines[..n] + [lines[n]];
      TextOfMore(lines[..n], lines[n]);
      BytesAreText(lines[..n]);
    }
  }
}
