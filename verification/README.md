# Grace library model

A Dafny model of the stateful engines of the Grace C++ application library, with proofs about
every input, every run and every interleaving.

| file | what it models |
|---|---|
| Wrappers.dfy, Text.dfy | option and result types; splitting, cutting and reading numbers in text |
| Dictionary.dfy | the keyed dictionary: an array threaded by a search tree over hash keys |
| Stack.dfy | the stack below the visitor |
| ScriptTree.dfy, ScriptSource.dfy, ScriptLaws.dfy, Script.dfy | the template script compiler and interpreter: as values, for sources in any spelling, part by part, and as linked tokens |
| EventQueue.dfy | the event queue between threads and the scoped locks |
| Logging.dfy, LogLaws.dfy, LogPipeline.dfy | the daemon's log calls, the log thread and the rotation of its files; what a target gets; all of it over the event queue |
| Records.dfy, Courier.dfy | the record database with its write-back cache; the courier encoding |
| Config.dfy, ConfigDb.dfy, TreeCompare.dfy | the tree visitor, key paths with a wildcard, the validate-then-apply load, and the comparison of trees |
| RingBuffer.dfy | the ring buffer between a codec and its reader |
| SslCodec.dfy, SslRuns.dfy | the SSL codec's buffers and its fall back to plain text; what goes through it in a run |
| Chunked.dfy | HTTP bodies: chunked, of a given length, and up to the end |
| Currency.dfy | fixed-point amounts |

Objects that the library changes in place are classes here, whose methods are proved against
functions on values; what the library promises is then proved about those functions. In
EventQueue.dfy the threads are a state machine with one step for each lock call, queue access
and wait. `dafny verify dfyconfig.toml` checks everything.

## What the proofs found

Where the code does not do what one would expect of it, the model follows the code, and a lemma
or a contract says for all inputs when it does:

- Reading a missing member of a database record creates it in the record, and a commit then
  writes it (Records.DbFile.Read). Removing a member below the first level does not reach the
  record that is committed, so the next reader finds it again (Records.RemoveThenRead). What was
  written and not committed is lost when another record is asked for that is not cached and the
  cache is at its bound, and not otherwise (Records.WriteThenEvict).
- The lookup in `run` of a script section that was never declared creates the label, so that
  `sectionexists` says yes from then on (ScriptRunner.Runner.RunSection). `@endswitch` leaves the
  cursor on the switch (ScriptParser.Parser.CloseSwitchAt).
- A failed `next` of the visitor leaves the cursor at the parent while the stacks are those of
  the child (Trees.FailedNextLosesItsPlace). The rounds over a path with a wildcard are all at
  matches if and only if every child has the rest of the path (KeyPaths.EveryRoundIsAtAMatch);
  up to the first child that has not, they are one a child (KeyPaths.WildcardVisitsInOrder).
- A configuration watcher on a path that is in neither tree is called for a creation and for a
  removal, and one whose path is gone may be called for a change before the removal
  (Transactions.PlainEffects). A watcher of a wildcard path has every new match compared with the
  first old one (Transactions.EffectsAre), so that loading the same tree again is quiet only when
  all matches are equal (Transactions.ReloadIsQuiet).
- Messages logged before `daemonize` are never written when none is logged after it
  (LogDaemon.BacklogNeedsOneMoreMessage). The resource file's name for application messages is
  misspelt in the code (LogDaemon.ApplicationIsMisspelt).
- A fetch by the SSL codec that is short of room neither rules out the fall back nor shortens
  its window. The fall back, and every fetch after it, adds to the ring buffer without asking for
  room; when backlog and bytes come to the size of the buffer, a whole buffer of unread bytes is
  lost (Rings.AddedKeeps, Passthrough.SpilledFallBack). What is read and can still be read after a
  fall back is the input, once, if no fetch was short of room and none spilled, and is not if
  exactly one of the two happened (Passthrough.FallBackHandsOverEverything).
- A chunked body that is cut off anywhere by the end of the connection is reported as complete,
  unless it is cut off in the data of a chunk, or right before it, and no read that got any of that data
  found more room than there were bytes left (Bodies.CutOffBodyPasses). A body of given length never is
  (HttpSockets.HttpSocket.GetData).
- The size of a chunk is taken modulo 32 bits, so that one of more than 31 bits can end a body
  (Bodies.LargeChunkIsRefused).
- The comparison of a leaf does not look at what the other node has besides its text and the
  attributes of the leaf (TreeComparison.TreeCmpIsSameTree): a leaf that gets children and keeps
  its text is no change.
- A @define without a blank behind its name defines the label without a name
  (ScriptLaws.DefineWithoutText).
- A negative amount does not survive printing and reading, unless it rounds to zero
  (Amounts.PrintThenParse).

## Model

| member | source | states |
|---|---|---|
| Text.SplitJoin | src/libgrace/strutil.cpp:55-71 | splitting on a character undoes joining with it, for any list of parts free of it |
| Text.IndexOf | src/libgrace/strutil.cpp:62-67 | the first place of a character: it is there, and not before |
| Numbers.DigitsAreRead | src/libgrace/str.cpp:2364-2369 | strtol reads digits in any spelling as the number they make, whatever follows that is no digit |
| Numbers.NumbersAreRead | src/libgrace/str.cpp:2364-2369 | blanks, a sign, in base 16 a prefix, and digits are read as their number; one that is too large is the largest of its sign |
| Numbers.DigitIsPlace | src/libgrace/str.cpp:2364-2369 | each of the sixteen digits, in either case, has its place as its value, and no other character is one |
| Text.FoldMeets | src/libgrace/cmdtoken.cpp:258-270 | two labels are one exactly when they differ in the case of letters only |
| Numbers.DecIsValue | src/libgrace/currency.cpp:428-428 | a number printed in decimal has that number as its value |
| SearchTrees.BuildIsSearchTree | include/grace/dictionary.h:231-262 | the tree made by inserting ids one by one holds exactly those ids, each once; keys are larger on the higher side and no larger on the lower side |
| SearchTrees.WalkDecidesMembership | include/grace/dictionary.h:162-177 | the descent that compares an id finds it if and only if it was inserted, also when ids share a key |
| SearchTrees.HangingIsInsertion | include/grace/dictionary.h:243-256 | linking a new node below the last one of its descent is inserting its id into the tree |
| Dictionaries.RefinesMap | include/grace/dictionary.h:135-144 | on the ordered contents, a set or a removal changes the lookup of its own id and of no other |
| Dictionaries.PutAtPlace | include/grace/dictionary.h:138-144 | setting an id that is there keeps its place |
| Dictionaries.DropAtPlace | include/grace/dictionary.h:276-280 | taking an id out closes the gap and keeps the order of the others |
| Dictionaries.Dictionary.constructor | include/grace/dictionary.h:187-190 | a new dictionary is empty, with array and tree in step |
| Dictionaries.Dictionary.Exists | include/grace/dictionary.h:156-178 | true if and only if the id is among those in the array |
| Dictionaries.Dictionary.NewEntry | include/grace/dictionary.h:200-223 | the entry comes last in the array, which grows when full, and is in no tree yet |
| Dictionaries.Dictionary.Demand | include/grace/dictionary.h:231-262 | the entry of an id; a new one is appended and linked so that the tree is the one built from the array |
| Dictionaries.Dictionary.Get | include/grace/dictionary.h:90-113 | looking up makes the object when it is absent, and gives the object of the id |
| Dictionaries.Dictionary.Set | include/grace/dictionary.h:138-152 | the contents become those with the id set, in place or at the end |
| Dictionaries.Dictionary.At | include/grace/dictionary.h:119-125 | the object at a place in insertion order, or the exception outside |
| Dictionaries.Dictionary.CloseGap | include/grace/dictionary.h:276-280 | the array without one place, the rest in order |
| Dictionaries.Dictionary.Relink | include/grace/dictionary.h:288-319 | from any stale links the rebuild makes the tree that the array spells |
| Dictionaries.Dictionary.Remove | include/grace/dictionary.h:266-324 | the contents lose the id and nothing else; array and tree are in step again |
| Dictionaries.Dictionary.Clear | include/grace/dictionary.h:59-76 | no contents are left |
| Dictionaries.DescendByKey | include/grace/dictionary.h:296-318 | the descent of the rebuild, by keys only, ends where insertion puts the id |
| Dictionaries.PerformAll | include/grace/dictionary.h:138-324 | any run of lookups, sets, removals and clears keeps array and tree in step and comes to the same run on an ordered map |
| Stacks.Stack.Push | include/grace/stack.h:46-61 | the element is on top, what was there is below, also when the array grows |
| Stacks.Stack.Pull | include/grace/stack.h:34-44 | the top element is taken off; on an empty stack the exception |
| Stacks.Stack.At | include/grace/stack.h:76-81 | places count from the top |
| Stacks.PushThenPull | include/grace/stack.h:34-61 | what is pushed comes back in reverse order and leaves the stack as it was |
| ScriptLines.CommandIsReadBack | src/libgrace/cmdtoken.cpp:238-252 | a command word and its arguments, printed with a blank between, are read back |
| ScriptLaws.DefineReadsBack | src/libgrace/cmdtoken.cpp:263-270 | the name of a @define ends at the first blank, and its text is the rest |
| ScriptLaws.DefineWithoutText | src/libgrace/cmdtoken.cpp:263-270 | without a blank all is text, of the label without a name |
| ScriptLaws.OtherWordsAreIgnored | src/libgrace/cmdtoken.cpp:349-350 | any other word behind an at sign is no command |
| ScriptLaws.IndentedLines | src/libgrace/cmdtoken.cpp:237-241 | blanks before a command do not matter, and before text they stay |
| ScriptLaws.WhenLinesThrow | src/libgrace/cmdtoken.cpp:275-342 | exactly which lines throw, by what the cursor is on and in |
| ScriptLaws.SwitchBuilds | src/libgrace/cmdtoken.cpp:272-306 | the lines of a switch build its token with one token for each case, and leave the cursor on it |
| ScriptLaws.SwitchMeans | src/libgrace/cmdtoken.cpp:361-376 | running it evaluates the items of the first case with the value of the key, or nothing |
| ScriptLaws.ThreeWordsDecide | src/libgrace/cmdtoken.cpp:409-435 | a condition of three words takes the first branch if and only if the two texts are equal, differ, match or are ordered as the word between them says, and the second for any other word |
| ScriptLaws.OneWordDecides | src/libgrace/cmdtoken.cpp:403-408 | a condition of one word takes the first branch if and only if its text is not empty |
| ScriptLaws.OtherWordsDecide | src/libgrace/cmdtoken.cpp:409-426 | with no word or two, the missing ones are empty |
| ScriptLaws.FilledIs | src/libgrace/cmdtoken.cpp:443-469 | text without a dollar sign stays; what is between two of them is replaced by its value, or by a dollar sign when it is empty |
| ScriptLaws.PlainLine | src/libgrace/cmdtoken.cpp:69-80 | a line of plain text is put behind the output, with a newline unless it is the last of its block |
| ScriptLaws.RowBinds | src/libgrace/cmdtoken.cpp:143-165 | a row binds what it holds by name, its leaves by place, its label and, when it is empty, itself; later ones count, and nothing else changes |
| ScriptLaws.LoopFinds | src/libgrace/cmdtoken.cpp:134-137 | a loop finds the rows of its name, and puts their number in the space |
| ScriptLaws.FirstCaseRuns | src/libgrace/cmdtoken.cpp:361-376 | of the tokens below a switch the first case with the value of the key runs |
| ScriptBuilder.StepKeepsGood | src/libgrace/cmdtoken.cpp:227-355 | whatever the line, well nested or not: the cursor stays a proper descendant of the parser, only @section and @define add children to it, labels count them, and children are in order |
| ScriptBuilder.BuildInTwo | src/libgrace/cmdtoken.cpp:227-355 | building is line by line: a text in two parts builds as the second after the first, up to the first error |
| ScriptBuilder.UndeclaredStays | src/libgrace/cmdtoken.cpp:256-269 | a label keeps its target through lines that do not declare it |
| ScriptBuilder.LabelFindsLastDeclaration | src/libgrace/cmdtoken.cpp:190-202 | for every source text, also one that build gives up on: walking as many siblings as the label says reaches the token of its last declaration among the lines that were read |
| ScriptBuilder.ReadsUpTo | src/libgrace/cmdtoken.cpp:227-355 | build reads the lines up to the first that throws, and what it leaves is what these lines make |
| ScriptBuilder.LaterTokensStay | src/libgrace/cmdtoken.cpp:26-46 | a token keeps its subtree while tokens are made elsewhere |
| ScriptMeaning.TokensMean | src/libgrace/cmdtoken.cpp:53-61 | running the tokens of a well nested script gives the output and variables of evaluating the script directly |
| ScriptMeaning.ItemTokenMeans | src/libgrace/cmdtoken.cpp:130-178 | the same for one loop, condition, assignment or text |
| ScriptMeaning.RowsMean | src/libgrace/cmdtoken.cpp:141-177 | the same for the rows of a loop |
| ScriptRoundTrip.OtherSectionsStay | src/libgrace/cmdtoken.cpp:256-261 | what one section builds does not change the others |
| ScriptDefinitions.StepsAreAlike | src/libgrace/cmdtoken.cpp:254-355 | a line other than @define does the same to two builders of which one has definitions besides |
| ScriptDefinitions.RunsAreAlike | src/libgrace/cmdtoken.cpp:263-270 | definitions anywhere, also inside loops and conditions, do not disturb what is built around them |
| ScriptSources.AnySpellingBuilds | src/libgrace/cmdtoken.cpp:214-356 | lines with the commands of a well nested script, however they are indented, with idle arguments and unknown commands between them, build under any cursor exactly the tokens of the script and leave the cursor where it was |
| ScriptSources.AnySectionBuilds | src/libgrace/cmdtoken.cpp:256-261 | such lines behind an @section build one child of the parser with the section's tokens |
| ScriptSources.DefinitionBuilds | src/libgrace/cmdtoken.cpp:263-270 | a @define adds one child with its text to the parser, and leaves the cursor and the other children |
| ScriptSources.BuildThenRunIsEval | src/libgrace/cmdtoken.cpp:185-356 | for every source whose commands, but for unknown ones and definitions, are those of a template of sections of text, @set, @loop and @if: it builds, and running a label gives the text of the definition in force, or what the last section of that name means |
| ScriptSources.CanonicalSays | src/libgrace/cmdtoken.cpp:227-356 | the plain lines of a template are such a source |
| ScriptParser.Tok.constructor | src/libgrace/cmdtoken.cpp:26-46 | the new token is linked behind the last child of its parent and no other link changes |
| ScriptParser.LastChild | src/libgrace/cmdtoken.cpp:37-39 | the walk along next ends at the last child |
| ScriptParser.Parser.Line | src/libgrace/cmdtoken.cpp:227-355 | one line does in memory what the step says, or throws when the step does |
| ScriptParser.Parser.BuildFrom | src/libgrace/cmdtoken.cpp:214-356 | the linked tokens and labels are those of the build |
| ScriptParser.Parser.CloseSwitchAt | src/libgrace/cmdtoken.cpp:275-290 | @endswitch leaves the cursor on the switch |
| ScriptParser.Parser.OpenCaseAt | src/libgrace/cmdtoken.cpp:292-306 | @case goes into the switch the cursor is in, or throws |
| ScriptParser.Parser.ElseAt | src/libgrace/cmdtoken.cpp:322-331 | @else goes to a second branch of the condition, or throws |
| ScriptParser.Parser.CloseIfAt | src/libgrace/cmdtoken.cpp:333-342 | @endif goes above the condition, or throws |
| ScriptRunner.Runner.RunData | src/libgrace/cmdtoken.cpp:69-80 | a text token appends its expanded text, and a newline unless it is last |
| ScriptRunner.Runner.RunIf | src/libgrace/cmdtoken.cpp:396-436 | one word is true when its text is not empty, three are compared as the second says; the first branch runs, or the one after it |
| ScriptRunner.Runner.RunKids | src/libgrace/cmdtoken.cpp:53-61 | the children in order, by following next |
| ScriptRunner.Runner.RunLoop | src/libgrace/cmdtoken.cpp:141-178 | for each row its label, its leaves by place and all it holds by name are put in the variable space, and the children run |
| ScriptRunner.Runner.RunSwitch | src/libgrace/cmdtoken.cpp:361-376 | the first case whose label is the value of the key |
| ScriptRunner.Runner.RunTok | src/libgrace/cmdtoken.cpp:53-178 | the run of a linked token is the run of the token as a tree |
| ScriptRunner.Runner.RunSection | src/libgrace/cmdtoken.cpp:190-202 | running a label runs its target; a label that was never declared is made by the lookup |
| ScriptRunner.LookupKeepsTargets | src/libgrace/cmdtoken.cpp:195-207 | that lookup changes what sectionexists says, and the target of no label |
| ScriptRunner.Render | src/libgrace/cmdtoken.cpp:185-356 | such a source, built and run on linked tokens, gives what it means |
| PendingEvents.PendingAre | src/libgrace/eventq.cpp:43-56 | every event sent is pending or taken and never both |
| PendingEvents.TakeFirst | src/libgrace/eventq.cpp:114-115 | taking the first pending event leaves the others in their order |
| PendingEvents.SendOne | src/libgrace/eventq.cpp:47-54 | an urgent event goes before all that is pending, a normal one behind it |
| PendingEvents.FirstIsOldest | src/libgrace/eventq.cpp:114-115 | when the first pending event is a normal one every older normal one was taken |
| EventThreads.StepKeepsLocks | include/grace/lock.h:258-328 | every step of every thread keeps mutual exclusion, and lock and unlock in turn |
| EventThreads.InsertKeepsGood | src/libgrace/eventq.cpp:47-55 | after an insertion, before the type is set, the queue is in order but for that type |
| EventThreads.SetTypeKeepsGood | src/libgrace/eventq.cpp:50-55 | setting the type completes the event that was inserted, and no other |
| EventThreads.RemoveKeepsGood | src/libgrace/eventq.cpp:114-115 | what is removed is what was read: the first pending event with its type |
| EventThreads.StepKeepsGood | src/libgrace/eventq.cpp:43-160 | every step keeps the queue in order and every delivery right |
| EventThreads.EveryRunIsGood | src/libgrace/eventq.cpp:43-160 | in every interleaving of any number of senders and receivers the queue is the pending urgent events newest first and then the pending normal ones oldest first |
| EventThreads.SentIsPendingOrDeliveredOnce | src/libgrace/eventq.cpp:43-160 | every event sent is in the queue or delivered, to one receiver and once, with the type it was sent with |
| EventThreads.UrgentFirst | src/libgrace/eventq.cpp:47-51 | a normal event is first only when no urgent one is pending |
| EventThreads.NormalEventsAreFifo | src/libgrace/eventq.cpp:43-160 | without urgent events the deliveries are the sends, in order, with none left out |
| EventThreads.DeliveredThenQueued | src/libgrace/eventq.cpp:43-160 | without urgent events the deliveries and then the queue are all the sends, in order |
| EventRoles.RunKeepsRoles | src/libgrace/eventq.cpp:43-160 | for every run in which one thread sends and one receives: every call of the sender is in the queue's history or still in its hands, and every delivery goes to the receiver |
| EventRoles.OneSenderOneReceiver | src/libgrace/eventq.cpp:43-160 | in every such run without urgent events the receiver has got the first part of what the sender was asked to send, in order, and all of it when the queue is empty between two sends |
| EventThreads.StuckOnlyOnTheLock | include/grace/lock.h:275-298 | a thread that cannot go on waits for the lock that another one has; none reads an empty queue |
| EventThreads.TouchedOnlyWhenHeld | src/libgrace/eventq.cpp:100-160 | the queue is changed and read with the write lock held, and counted with the read lock |
| EventThreads.NothingIsHeldOutside | include/grace/lock.h:258-328 | between calls and during a wait a thread holds nothing; its lock and unlock calls strictly alternate, and are in pairs then |
| EventTraces.CallTakesItsCourse | src/libgrace/eventq.cpp:43-160 | for every interleaving, from anywhere in a call to its end: the calls on the lock that a thread makes and the event it is given are those of its course, which depends only on the contents it finds and the answers of its waits |
| EventTraces.CallIsWhole | src/libgrace/eventq.cpp:43-160 | the same for a call from its beginning; EventSections.EventQ takes the same course |
| EventSections.WaitTakesOne | src/libgrace/eventq.cpp:100-144 | what a wait found last is the event it returns, and what it leaves |
| EventSections.ScopedLock.Lock | include/grace/lock.h:275-286 | locks unless locked already, with one call on the lock or none |
| EventSections.ScopedLock.Unlock | include/grace/lock.h:288-295 | unlocks only what is locked, with one call on the lock or none |
| EventSections.ScopedUnlock.constructor | include/grace/lock.h:305-310 | the target is unlocked, and will not be locked again unless asked |
| EventSections.ScopedUnlock.Close | include/grace/lock.h:312-318 | the target is locked again if and only if the section was left at its end |
| EventSections.EventQ.Send | src/libgrace/eventq.cpp:43-95 | the queue found gets the event, typed, at the front or the back; nothing is held on return, and the calls on the lock are those of the course of a send |
| EventSections.EventQ.WaitEvent | src/libgrace/eventq.cpp:100-144 | for any number of wait rounds: the event returned and the calls on the lock are those of the course of a wait with the same contents and answers; nothing is held on return |
| EventSections.EventQ.NextEvent | src/libgrace/eventq.cpp:149-160 | the same for taking an event without waiting |
| Logs.WrittenDropsOnlyTheOldest | src/libgrace/daemon.cpp:685-704 | a write that rotates drops the oldest file and nothing else |
| Logs.KeptIsTheLastPart | src/libgrace/daemon.cpp:680-704 | rotated files joined oldest to newest, then the live file, are the last part of all lines written, for any lines |
| Logs.LossMeansFullFiles | src/libgrace/daemon.cpp:685-704 | lines are lost only when there are four rotated files; those made by writing are each one line over the limit |
| LogThreads.MoveUp | src/libgrace/daemon.cpp:693-701 | one rename of the rotation |
| LogThreads.Rotate | src/libgrace/daemon.cpp:687-704 | the loop of renames moves every file of the target one place up and drops the last; other files stay |
| LogThreads.WriteTo | src/libgrace/daemon.cpp:680-704 | a line is appended, and the files rotate when the live one is over the limit |
| LogThreads.AddLogTarget | src/libgrace/daemon.cpp:458-481 | the new target comes last and goes on with the log it finds, or an empty one; the others' logs stay |
| LogThreads.LogThread.Handle | src/libgrace/daemon.cpp:612-708 | one message goes to every target whose mask wants it, and to no other |
| LogThreads.LogThread.Run | src/libgrace/daemon.cpp:594-732 | the files and syslog get the messages received, in order, up to the first "die" |
| LogThreads.EachTargetGetsItsLines | src/libgrace/daemon.cpp:602-709 | for each file target alone: its files are those of writing the lines its mask lets through |
| LogLaws.FilesGetWhatIsAsked | src/libgrace/daemon.cpp:376-426 | for targets as the resource file gives them and messages of one level each: the files of a target get the lines of the messages whose level its names ask for, in order, and no others |
| LogLaws.MaskAsks | src/libgrace/daemon.cpp:376-420 | a mask has a level if and only if a name asks for it, for the eight levels and the three collective names |
| LogLaws.SyslogGetsAll | src/libgrace/daemon.cpp:612-652 | syslog gets, up to the stop, one line for each of its entries that asks for the level of a message, with the code of the level |
| LogLaws.LineShows | src/libgrace/daemon.cpp:652-683 | time, unit in its column, level and text are read off a line |
| LogLaws.BytesAreText | src/libgrace/daemon.cpp:685-686 | the size compared with the limit is that of the text in the file |
| LogLaws.ErrIsAloud | src/libgrace/daemon.cpp:355-357 | what is written to the standard error: everything before daemonize, and in the foreground what is critical |
| LogDaemon.ApplicationIsMisspelt | src/libgrace/daemon.cpp:376-386 | names in the resource file select application messages only in the spelling "appliation" or by "all" and "allinfo" |
| LogDaemon.Daemon.Write | src/libgrace/daemon.cpp:344-450 | before daemonize a message goes to the backlog; after it targets are read from the resource file if there are none, and the backlog and then the message go to the log thread |
| LogDaemon.Daemon.ReadTargets | src/libgrace/daemon.cpp:393-426 | one target for each entry of the resource file, in order, with the mask that its names make |
| LogDaemon.TargetsAreAddedOrRead | src/libgrace/daemon.cpp:390-426 | for any calls: the resource file counts only when no target was added before the first message after daemonize, and then its targets come before those added later |
| LogDaemon.FirstTargetsAre | src/libgrace/daemon.cpp:390-433 | the targets when the first message after daemonize is logged: those added before it, or else those of the resource file; they stay the first ones |
| LogDaemon.Daemon.Flush | src/libgrace/daemon.cpp:437-445 | the backlog is sent in order and emptied |
| LogDaemon.Daemon.StopLog | src/libgrace/daemon.cpp:582-586 | "die" is sent if there is a log thread |
| LogDaemon.StartedMeansSpoke | src/libgrace/daemon.cpp:428-433 | there is a log thread if and only if a message was logged after daemonize |
| LogDaemon.CallsKeepOrder | src/libgrace/daemon.cpp:344-450 | for any sequence of calls: all messages are in the backlog, or all were sent, in the order they were logged |
| LogDaemon.StopAfterEverythingIsWritten | src/libgrace/daemon.cpp:582-732 | for any calls before a stop and any after it: every file target that was there from the first message on is given the lines it wants of all messages logged before the stop, backlog first, and its files, whatever they held, end with the last part of them |
| LogDaemon.BacklogNeedsOneMoreMessage | src/libgrace/daemon.cpp:355-365 | without a message after daemonize nothing is written |
| LogPipeline.LogThreadReceivesInOrder | src/libgrace/daemon.cpp:582-608 | in every interleaving the log thread has received the first part of what the daemon sent, and all of it when the queue is empty between two sends |
| LogPipeline.LoggedIsWritten | src/libgrace/daemon.cpp:344-732 | from calls to files, in every interleaving: what a file target that was there from the first message on was given so far is the first part of the lines it wants of the messages logged before the stop, and all of them once the thread was told to die; its files, as the run of the log thread leaves them, hold the last part |
| Values.PutThenAt | src/libdbfile/dbfile.cpp:168-175 | what is written at a path is found at it |
| Values.PutElsewhere | src/libdbfile/dbfile.cpp:168-175 | a write does not show at disjoint paths |
| Values.PutAbove | src/libdbfile/dbfile.cpp:168-175 | above the place that is written the nodes keep their texts and children, and get the one on the way to it |
| Values.TracksOneMore | src/libdbfile/dbfile.cpp:86-103 | a chain of records got by navigating carries what is needed to put the value together again |
| Records.Record.Member | src/libdbfile/dbfile.cpp:86-103 | the member is brought up to date with its record; a member that is missing is created in the record |
| Records.Record.RemoveMember | src/libdbfile/dbfile.cpp:137-148 | the child is gone from this record, whose members are dropped |
| Records.FromValue | src/libdbfile/dbfile.cpp:153-176 | the value is carried up to the record below the root, and every record on the way is marked changed |
| Records.DbFile.Fetch | src/libdbfile/dbfile.cpp:104-131 | a cached record, or one loaded from the store, or a new one; a full cache is dropped first |
| Records.DbFile.Load | src/libdbfile/dbfile.cpp:115-131 | create is set exactly when the store has no such key |
| Records.DbFile.Navigate | src/libdbfile/dbfile.cpp:62-132 | for any depth: the record reached holds what is at the path, and other cached records are unchanged |
| Records.DbFile.Write | src/libdbfile/dbfile.cpp:153-176 | for any depth: the record's value becomes the old one with the path replaced; every record on the chain is marked changed; other records are unchanged |
| Records.DbFile.RemoveAt | src/libdbfile/dbfile.cpp:137-148 | a removal reaches the cached record if and only if it is made on that record itself |
| Records.DbFile.Read | src/libdbfile/dbfile.cpp:62-103 | what is at the path; reading creates the first member it goes through |
| Records.DbFile.SetRecord | src/libdbfile/gdbmfile.cpp:99-123 | an insert fails if the key is there, a replace does not |
| Records.DbFile.CommitOne | src/libdbfile/dbfile.cpp:231-247 | an insert never meets its key, because create is right |
| Records.DbFile.Commit | src/libdbfile/dbfile.cpp:227-251 | the store is overridden by the encodings of the records written; it stops at the first refused one and the cache stays consistent |
| Records.DbFile.Remove | src/libdbfile/dbfile.cpp:256-261 | a removal empties the whole cache |
| Records.WriteThenRead | src/libdbfile/dbfile.cpp:62-176 | a write at any path is read back by navigating anew, and disjoint paths read as before |
| Records.RemoveThenRead | src/libdbfile/dbfile.cpp:137-148 | a removed member reads as gone at the first level, and as it was at any deeper one |
| Records.CommitThenReload | src/libdbfile/dbfile.cpp:227-251 | after a commit, reading through an emptied cache returns the committed values, for a lossless encoding |
| Records.WriteThenEvict | src/libdbfile/dbfile.cpp:109-113 | for every capacity and every cache: after a write and a look at another record the write is read back, unless that look emptied a full cache; then the committed value is |
| Courier.DecodeEncode | src/libdbfile/dbfile.cpp:367-409 | decoding an encoded record gives the record, with its order, if and only if it has a field, distinct keys without separators, and texts without bars |
| Courier.WordIsCut | src/libdbfile/dbfile.cpp:405-407 | only the first = is cut at, so that texts may hold others |
| Courier.AssignSets | src/libdbfile/dbfile.cpp:405-407 | an assignment sets the text of its key, whatever its case, and of no other, and moves no key |
| Courier.Encode | src/libdbfile/dbfile.cpp:367-373 | the loop joins the fields with bars |
| Courier.Decode | src/libdbfile/dbfile.cpp:401-409 | the loop assigns the fields in order |
| Trees.AtRootOnlyOnTop | include/grace/visitor.h:104-113 | whether the cursor is at the root, which up tests, is whether the stacks are empty |
| Trees.FailedNextLosesItsPlace | include/grace/visitor.h:84-101 | a failed next breaks the chain of ancestors if and only if the cursor had a place among siblings |
| Trees.MovesKeepSound | include/grace/visitor.h:48-113 | after every other move the stacks are equally deep and are the ancestors of the cursor |
| KeyPaths.RefillCounts | src/libgrace/configdb.cpp:275-299 | each wildcard passed counts up, and stays below the size of the tree, so that the loop over matches ends for every path |
| KeyPaths.DescendResolves | src/libgrace/configdb.cpp:224-244 | the cursor of begin reaches what the names lead to |
| KeyPaths.ExistsIsResolve | src/libgrace/configdb.cpp:198-217 | existsin is right about paths without wildcard |
| KeyPaths.BackUpUndoes | src/libgrace/configdb.cpp:264-272 | going back to the wildcard undoes the way down |
| KeyPaths.NextRound | src/libgrace/configdb.cpp:262-299 | next goes from each round at a child that has the rest of the path to the child after it, and says no after the last |
| KeyPaths.WildcardVisitsEachMatch | src/libgrace/configdb.cpp:224-299 | for a path with one wildcard whose prefix exists and whose children all have the rest: every match is visited once, in child order |
| KeyPaths.PlainPathIsVisitedOnce | src/libgrace/configdb.cpp:224-299 | a path without wildcard is visited once, even when it is not there |
| KeyPaths.WildcardVisitsInOrder | src/libgrace/configdb.cpp:236-299 | as long as the children before it have the rest of the path, the i-th round is at the i-th child; get returns what as much of the rest as that child has leads to |
| KeyPaths.DepthIsPresence | src/libgrace/configdb.cpp:198-244 | begin ends as deep as the path is long if and only if existsin would say yes |
| KeyPaths.EveryRoundIsAtAMatch | src/libgrace/configdb.cpp:224-299 | for a path with one wildcard: the cursor of every round stands as deep as the path is long if and only if the prefix is there, its node has children, and all of them have the rest |
| Visitors.Visitor.Enter | include/grace/visitor.h:48-62 | enter on the cursor object |
| Visitors.Visitor.First | include/grace/visitor.h:65-81 | first on the cursor object |
| Visitors.Visitor.Next | include/grace/visitor.h:84-101 | next on the cursor object |
| Visitors.Visitor.Up | include/grace/visitor.h:104-113 | up on the cursor object |
| Visitors.Visitor.Root | include/grace/visitor.h:116-131 | all levels are left and the cursor is at the root |
| ConfigDatabase.KeyPath.ExistsIn | src/libgrace/configdb.cpp:198-217 | existsin on the path object, for every path; one to which nothing was ever added is found nowhere |
| ConfigDatabase.KeyPath.BeginAt | src/libgrace/configdb.cpp:224-244 | begin: cursor and walked path are those of the first round |
| ConfigDatabase.KeyPath.BackUpTo | src/libgrace/configdb.cpp:264-268 | the first loop of next |
| ConfigDatabase.KeyPath.RefillTo | src/libgrace/configdb.cpp:274-298 | the last loop of next |
| ConfigDatabase.KeyPath.ToNext | src/libgrace/configdb.cpp:262-299 | next: the walk of the next round, or no |
| Transactions.AskIsAsked | include/grace/configdb.h:309-330 | the first pass asks in order and stops at the first refusal |
| Transactions.AllIsChecked | include/grace/configdb.h:309-330 | the first pass asks of every watcher whether each match of its path is valid, and nothing else |
| Transactions.AllEffectsAre | include/grace/configdb.h:332-375 | the second pass calls for every watcher the effects on its path, and nothing else |
| Transactions.InForceMeansAccepted | include/grace/configdb.h:193-242 | over any run of loads: the tree in force is the first one or one whose checks were all accepted |
| Transactions.NoEffectBeforeAcceptance | include/grace/configdb.h:299-375 | over any run of loads: every create, change and remove follows the acceptance of every match of every watcher, in the load it belongs to |
| Transactions.PlainEffects | include/grace/configdb.h:332-372 | for a watched path without wildcard, exactly which of create, change and remove are called, in all four cases of being in the old and the new tree |
| TreeComparison.ChangeIsTold | include/grace/configdb.h:340-348 | for a watched path in both trees, without repeated or missing names below: one change, unless the old tree there is the same as the new one |
| TreeComparison.ChangedLeafIsTold | include/grace/configdb.h:340-348 | a leaf at or below a watched path with another text, or gone, is exactly one change |
| TreeComparison.ChangedTextIsTold | include/grace/configdb.h:340-348 | a watched leaf with another text is exactly one change, whatever the trees are like besides |
| Transactions.EffectsAre | include/grace/configdb.h:332-372 | for every path: all it matches in the new tree is compared with its first match in the old one, or all is created; all it matched in the old tree is removed, or nothing |
| Transactions.WildcardWatcherIsTold | include/grace/configdb.h:332-372 | for a wildcard path that all children have, in both trees: exactly the new matches that differ from the first old match are told, as changes of that; no match that came or went is |
| Transactions.ReloadIsQuiet | include/grace/configdb.h:332-372 | loading the tree in force again calls nothing but checks if and only if the path is there and all it matches equals the first match |
| Transactions.PlainReloadIsQuiet | include/grace/configdb.h:332-372 | that is so for every path without wildcard that is there, in a tree without repeated names |
| Transactions.OnlyRootWatched | src/libgrace/configdb.cpp:198-200 | when no watched path has a name, every load calls for a creation and a removal of the root |
| Transactions.SameIsSame | src/libgrace/value.cpp:1911-1939 | treecmp, which looks at text and attributes only where there are no children, finds a tree equal to itself when no two siblings share a name |
| TreeComparison.TreeCmpIsSameTree | src/libgrace/value.cpp:1911-1939 | for trees without repeated or missing names: treecmp finds a and b equal if and only if every path of a leads to something in b, from a leaf of a to the same text and the attributes it has, and from any other node to no further name |
| Loading.ConfigDb.AddWatcher | include/grace/configdb.h:264-279 | the path is copied and watched last |
| Loading.ConfigDb.Validate | include/grace/configdb.h:312-328 | the matches of one watcher are put to the application until it refuses one |
| Loading.ConfigDb.Arrive | include/grace/configdb.h:340-357 | create, change or nothing for one match in the new tree |
| Loading.ConfigDb.Depart | include/grace/configdb.h:361-370 | remove or nothing for one match in the old tree |
| Loading.ConfigDb.ValidateAll | include/grace/configdb.h:309-330 | the first pass over the watchers |
| Loading.ConfigDb.ApplyAll | include/grace/configdb.h:332-375 | the second pass over the watchers |
| Loading.ConfigDb.HandleActions | include/grace/configdb.h:299-376 | both passes: all checks up to a refusal, then, if there was none, all effects |
| Loading.ConfigDb.Load | include/grace/configdb.h:193-242 | a load changes the tree in force only when the file parsed, passed the validator and every check was accepted |
| Rings.AddedKeeps | src/libgrace/ringbuffer.cpp:99-121 | after any add every byte ever added is read, held or lost, once; bytes are lost exactly when backlog and new bytes come to the size of the buffer, and then as many as that |
| Rings.TakenKeeps | src/libgrace/ringbuffer.cpp:128-154 | reading loses nothing, and keeps the order |
| Rings.RoomIsSafe | src/libgrace/ringbuffer.cpp:81-92 | room is what is free but for the margin, or none; what fits in it never makes the write cursor come round |
| RingBuffers.RingBuffer.Backlog | src/libgrace/ringbuffer.cpp:64-71 | the number of bytes between the cursors |
| RingBuffers.RingBuffer.Room | src/libgrace/ringbuffer.cpp:81-92 | what is free but for the margin, or none |
| RingBuffers.RingBuffer.Add | src/libgrace/ringbuffer.cpp:99-121 | the bytes follow those held; when they come round to the read cursor a whole buffer of unread bytes is gone; more than the buffer is long throws |
| RingBuffers.RingBuffer.Read | src/libgrace/ringbuffer.cpp:128-154 | the oldest bytes, at most as many as there are, over the end of the array too |
| Windows.Window.Append | src/libgrace-ssl/sslsocket.cpp:283-284 | bytes are added behind what is in use |
| Windows.Window.Compact | src/libgrace-ssl/sslsocket.cpp:261-263 | what is in use moves to the front of the buffer unchanged |
| Windows.Window.Grow | src/libgrace-ssl/sslsocket.cpp:272-276 | a buffer of twice the size with the same content |
| Windows.Window.Squeeze | src/libgrace-ssl/sslsocket.cpp:338-339 | the move after a short delivery leaves the window as long as it was, with its last bytes twice |
| Windows.Window.Prepend | src/libgrace-ssl/sslsocket.cpp:376-378 | bytes are put before what is in use |
| Passthrough.InputKeepsGood | src/libgrace-ssl/sslsocket.cpp:250-286 | accepting input, with or without moving the buffer, keeps the invariant |
| Passthrough.DoKeepsGood | src/libgrace-ssl/sslsocket.cpp:250-391 | every operation keeps: while falling back is possible all input is in the buffer; every byte handed over is read, held or lost by the ring buffer, once, in order while none is lost, and some are lost exactly when the operation spills |
| Passthrough.FallBackHandsOverEverything | src/libgrace-ssl/sslsocket.cpp:250-391 | for every run, every decoder, every reader and every size of the ring buffer: once in passthrough, bytes read, bytes held and bytes left are all bytes accepted, when no fetch spilled if and only if none was short of room, and when none was short if and only if none spilled; in all cases their number and that of the bytes lost is that of the bytes accepted and of those delivered before; output is passed on byte for byte |
| Passthrough.SpilledFallBack | src/libgrace-ssl/sslsocket.cpp:383-389 | a fall back with exactly as many bytes as the empty ring buffer is long: none of them can be read |
| Passthrough.NoWayBack | src/libgrace-ssl/sslsocket.cpp:250-393 | for every run: while there was no fall back the flag is set exactly when no operation so far moved the input, delivered plain text that there was room for, or queued a response; after one that did there is none for the rest of the run |
| Passthrough.ShortRoomBreaksTheFallBack | src/libgrace-ssl/sslsocket.cpp:333-389 | for any text longer than the room: the first part is delivered, the last bytes stay twice, and an error falls back after it |
| Conversations.WhatGoesThrough | src/libgrace-ssl/sslsocket.cpp:250-587 | for every run, told by the operations and answers: the input taken in and not yet used, the text that was read and is held, what waits in the buffer, and whether the handshake is done; and all output, taken and waiting: the hello, what the encoder made of outputs, and the responses, each in front of what was waiting then |
| Conversations.TextIsAllMade | src/libgrace-ssl/sslsocket.cpp:326-357 | without short deliveries, responses, alerts and errors: the text and what waits are all that the decoder made, in order |
| Conversations.WireIsEncoded | src/libgrace-ssl/sslsocket.cpp:482-532 | without responses: the output is what was there and all that the encoder made, in order |
| Conversations.AnswerReturns | src/libgrace-ssl/sslsocket.cpp:310-464 | for which answers fetchinput returns true, and for which it throws |
| Conversations.AnswerGoesOn | src/libgrace-ssl/sslsocket.cpp:310-464 | for which answers the decoder is called again, with what buffer, and for which the codec falls back |
| Conversations.CallsReturn | src/libgrace-ssl/sslsocket.cpp:250-587 | what addinput, addoutput and doneoutput return |
| SslCodecs.SslCodec.AddInput | src/libgrace-ssl/sslsocket.cpp:250-286 | addinput over the buffers |
| SslCodecs.SslCodec.Deliver | src/libgrace-ssl/sslsocket.cpp:333-357 | plain text is added to the ring buffer as far as there is room |
| SslCodecs.SslCodec.SendBack | src/libgrace-ssl/sslsocket.cpp:359-381 | the response goes before the output that is waiting, or an exception |
| SslCodecs.SslCodec.FallBack | src/libgrace-ssl/sslsocket.cpp:383-433 | all raw bytes are added to the ring buffer, or an exception of the codec or of the ring buffer |
| SslCodecs.SslCodec.PassOn | src/libgrace-ssl/sslsocket.cpp:297-302 | in passthrough the input is added to the ring buffer as it is, or the exception of the ring buffer |
| SslCodecs.SslCodec.FetchInput | src/libgrace-ssl/sslsocket.cpp:291-464 | fetchinput over the buffers and the ring buffer, for any answers of the decoder |
| SslCodecs.SslCodec.AddOutput | src/libgrace-ssl/sslsocket.cpp:482-544 | addoutput over the buffers |
| SslCodecs.SslCodec.PeekOutput | src/libgrace-ssl/sslsocket.cpp:559-568 | the output waiting; nothing is changed when there is none |
| SslCodecs.SslCodec.DoneOutput | src/libgrace-ssl/sslsocket.cpp:573-587 | the output taken is gone from the front; more than there is throws |
| Bodies.PiecesMakeTheBody | src/libgrace/file.cpp:976-1045 | however a stream is cut, reading n bytes is complete if and only if it has n, and else gives all it has |
| Bodies.ChunksArePutTogether | src/libgrace/http.cpp:404-483 | for every list of chunks and every way the stream is cut: the data is joined, and reading stops behind the line of the last chunk |
| Bodies.LineIsCut | src/libgrace/file.cpp:711-720 | a line is read without its line end |
| Streams.LinesAreCut | src/libgrace/file.cpp:711-720 | whatever comes: a line has no newline and no more bytes than the limit, and nothing but one line end is between it and what follows |
| Bodies.TruncatedPieces | src/libgrace/http.cpp:439-456 | for every stream too short and all rooms the reads find: it counts as broken if the reads use up what is left exactly and its end was not noticed before, and else as hung up |
| Bodies.CutOffBodyPasses | src/libgrace/http.cpp:404-507 | for every list of chunks, every last-chunk line, every place where the body is cut off and all rooms the reads find: the data is what arrived, and it is reported as a whole body unless the cut is behind a size line or in the data of a chunk and no read that got any of that data found more room than there were bytes left |
| Bodies.CutInSizeLine | src/libgrace/http.cpp:418-483 | a body cut off in a size line, or before the end of it, is always reported as complete |
| Bodies.CutInLineEnd | src/libgrace/http.cpp:454-454 | so is one cut off in the line end after the data |
| Bodies.CutInData | src/libgrace/http.cpp:439-456 | one cut off in the data, if and only if some read of it found more room than there were bytes left |
| Bodies.BodyWithoutLastChunkPasses | src/libgrace/http.cpp:404-507 | a body that ends behind whole chunks, without the last one, is always reported as complete |
| Bodies.LargeChunkIsRefused | src/libgrace/http.cpp:428-433 | a chunk of more than the limit is refused, behind any whole chunks; sizes count modulo 32 bits, and one that is negative then is taken for the last chunk |
| Bodies.WholeChunksAreRead | src/libgrace/http.cpp:404-483 | reading goes on behind whole chunks with the rooms that are left |
| Bodies.EverythingIsRead | src/libgrace/http.cpp:563-578 | without a length everything up to the end is read |
| HttpSockets.HttpSocket.GetPieces | src/libgrace/http.cpp:437-455 | the reading loop of getChunked and of getData |
| HttpSockets.HttpSocket.Round | src/libgrace/http.cpp:416-480 | one round of getChunked |
| HttpSockets.HttpSocket.GetChunked | src/libgrace/http.cpp:404-507 | the body, the result, the error code and whether the connection is closed |
| HttpSockets.HttpSocket.GetData | src/libgrace/http.cpp:514-581 | the same for getData; a short body is never reported as complete |
| Amounts.PrintThenParse | src/libgrace/currency.cpp:418-472 | for every amount in range: reading what was printed gives the amount rounded to hundredths if and only if it is above -5; what it gives otherwise |
| Amounts.DigitsAreParsed | src/libgrace/currency.cpp:437-472 | digits alone are whole; the first two digits after a point are tenths and hundredths; what comes after them does not count |
| Amounts.OthersAreNotParsed | src/libgrace/currency.cpp:450-455 | any character but a digit, a blank or a point before a point gives nothing |
| Amounts.RoundingIsClose | src/libgrace/currency.cpp:399-411 | the rounding is within 5, exact on multiples of ten, monotone, and symmetric |
| Amounts.PrintedFits | include/grace/currency.h:129-129 | the text of every amount in range, with its zero byte, fits the array |
| Amounts.DivideThenMultiply | src/libgrace/currency.cpp:217-284 | for all amounts of either sign and divisors: dividing and multiplying back loses between 0 and (b+998)/1000 thousandths and keeps the sign |
| Currencies.OperatorsAreClose | src/libgrace/currency.cpp:217-284 | products and quotients of amounts are right to a thousandth, rounded towards zero, with the sign of the true one |
| Currencies.PrintCurrency | src/libgrace/currency.cpp:418-429 | the text printed |
| Currencies.ParseCurrency | src/libgrace/currency.cpp:437-472 | the scanning loop reads what the reference reading does |
| Currencies.Currency.Multiply | src/libgrace/currency.cpp:217-229 | the assigning form computes what the const form does |
| Currencies.Currency.Divide | src/libgrace/currency.cpp:256-268 | the assigning form computes what the const form does |
| Currencies.Currency.Str | src/libgrace/currency.cpp:399-411 | the text is in the array, with a zero byte behind it, within bounds |
| Currencies.DivideAndMultiply | src/libgrace/currency.cpp:217-268 | the bound on the object |

## Left out

- Memory: release of entries, tokens, visitors and buffers, and failed allocations.
- Operating system calls, the network, PCRE, GDBM and MatrixSSL: the store is a map, the log
  files are a map with rename, the decoder and the encoder are arbitrary lists of answers.
- The timing of `conditional`: a wait may return true or false at any time. Liveness is not
  modelled.
- The overload of `dictionary::demand` for a number, which no other method calls, and the
  `dynamic` flag of its entries.
- `array.h`, `ipaddress`, `fswatch`, `checksum`, `rangegen`, `perthread`, the thread-specific copies
  of the configuration (`tsdb`), terminal, CGI and querido: easy or finite.
- Keys of value objects are compared without regard to case for script labels and courier
  fields; in trees and records they are compared as they are.
- Calls of other sections from the text of a script (`<<section>>`): the model stops there, and
  says so in its result. What `$...$` expressions and `@set` do to the variable space, the
  splitting of a condition into words, `globcmp` and `strcasecmp` are arbitrary functions.
- `@switch` is not in the templates whose meaning is proved preserved, because what follows its
  end goes below it; what its lines build and what that does is proved by itself.
- Loop mode over a database (`inloop`) and the encodings other than courier, which are arbitrary
  functions.
- A message carries one time stamp, although the log thread asks for the time once for each file
  target. Two file targets whose names overlap, as "a" and "a.0", are not covered. Two threads
  that make the first call after `daemonize` at the same time are not covered.
- Key paths with more than one wildcard have no statement about what they enumerate, because the
  one counter does not; that their loop ends is proved.
- Growing of the array of a key path.
- The timeout paths of `getChunked` and `getData`, and lines longer than the ring buffer.
- Ring buffers of less than 256 bytes, for which `room` wraps around; their late allocation; and
  their methods for lines, peeking, searching and copying.
- Overflow of 64 bits in amounts, and the operators on doubles.
- LogThreads.AddLogTarget: a family of old files with a gap, as "a" and "a.1" without "a.0", is not covered.
- LogThreads.LogThread.Run: the targets are those there from the first message on. One that is added later gets the messages handled after that, and which these are depends on the threads.
- LogDaemon.Daemon.ReadTargets: the opening of a new target's file is LogThreads.AddLogTarget, and not part of this contract.
- Transactions.SameIsSame: leaves are compared as texts, where the library compares numbers as numbers.
- SslCodecs.SslCodec.AddInput: asks of its caller what the copy of the bytes needs, that they fit after one doubling of the buffer or are refused.
- Amounts.PrintThenParse: amounts within 5 of the largest number of 64 bits are not covered.
