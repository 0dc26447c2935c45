# WMCore: models and proofs

WMCore is the workload management code of the CMS experiment. Most of it connects services; this
project takes the parts that are algorithms or protocols, models each in Dafny, and proves what
they are for. Each group of modules below follows one source component.

| modules | component |
|---|---|
| `ConfigModel`, `ConfigReplay`, `ConfigEdits`, `ConfigPrinted`, `Configuration` | configuration trees, saved as a Python program that rebuilds them |
| `Md5Words`, `Md5Rfc`, `Md5Laws`, `Md5Sine`, `Md5Js`, `Md5Message` | MD5 in JavaScript against the MD5 standard (RFC 1321) |
| `Throttle` | the per-user throttle, as a state machine of many threads, and its object |
| `Transactions` | nested database transactions: programs as trees of blocks, and the objects of one thread |
| `PSetTree`, `PSetJson`, `PSetScript`, `PSetShapes`, `PSetHolders`, `PSetVisitors`, `PSetTweaks` | tweaks: trees built from dotted names, written as JSON or Python and built again |
| `WMTweak` | expanding names with wildcards |
| `Graphs`, `SchemaOrder`, `ObjectSize`, `DependencyTree`, `SpecDeps` | four graph algorithms |
| `LumiRanges`, `LumiPages` | three programs that turn luminosity sections into ranges, and one that expands ranges |
| `WorkQueue` | matching work queue elements to sites |
| `Tail`, `ZipEncode`, `ModuleIndex` | the last lines of a file, truncating a message until it fits, the index of modules |
| `Common`, `Sorting` | shared definitions |

Code that changes things step by step is modelled by methods with loops and, where it changes
objects, by classes; each such method is proved to compute a function or to reach a state whose
properties are then stated as lemmas. Objects that form trees (`ConfigSection`, `PSetHolder`) are
real objects; the methods take the value of the tree as a ghost argument and are proved to keep
objects and value in step. Where Python iterates over a set or a dictionary, the methods pick the
elements in any order, so the results hold for every order. I/O, clocks and services are parameters
or are left out.

## What the source and its comments say differently

- `src/python/WMCore/WMInit.py:136-140` says that a `Transaction` begins when it is made. Its
  constructor (`src/python/WMCore/Database/Transaction.py:22-28`) does not begin one, and the model
  follows the constructor. A thread without the attribute therefore runs its first outermost block
  outside any transaction: `AllOrNothingIff` says exactly when blocks are all or nothing.
- `src/python/WMCore/WMInit.py:255-256` reports a circular dependency also when a dependency was
  simply not requested: `UnrequestedIsNoCycle` is an example, `OrderExistsIff` separates the two.
- `src/couchapps/WorkQueue/lib/workqueue_utils.js:6-14` says that sites holding all the data are
  returned. What comes back is the whole whitelist or nothing. `SitesHoldAllIff` says exactly when
  the sites returned hold all the data. That any are returned means that one site holds all the data
  only for a single data item (`MeansCommonIff`); `CommonSitesAreNotCommon` is an element with two.
- `src/python/Utils/Throttled.py:57-67` limits the threads a user is counted for, not the threads
  that work for the user: a thread that is inside for another user, or was rejected for one, is let
  in beyond the limit. `CountedAreLimited` is what always holds, `KeepsToIff` says how far beyond.
- `src/python/Utils/Utilities.py:170-174` compresses the truncated message with the default level,
  not with the level asked for: `LevelIsIgnored`.
- `src/couchapps/FWJRDump/_attachments/workflowSummary.js:254-283`: a run without numbers prints the
  last range of the run before it: `RenderRuns` and `EmptyRunRepeats`, with `StaleRange` as an example.
- `doc/generate_modules.py:141-148` can keep a submodule of a module that is listed:
  `HyphenBreaksPass`. It is enough that no character of a name sorts before the dot
  (`PlainNamesRight`); the exact condition is that of `IndexIsRightIff`.
- `src/python/WMCore/Configuration.py:482-512` sets the defaults of a component or webapp whenever it
  is made, also when a saved file is loaded, so a default that was deleted comes back:
  `DeletedDefaultComesBack`, and `CallToldIff` for exactly what a saved file tells.
- `src/python/Utils/Throttled.py:57-67` never gives back a rejected entry, so that rejections can lock
  a user out for good: `LockedOutIff` says exactly when.

## Model

| member | source | states |
|---|---|---|
| `ConfigReplay.SaveLoadIffWellFormed` | src/python/WMCore/Configuration.py:514-544 | saving any configuration and running the saved file on an empty one gives back the same sections in order, the same components and webapps, and every setting and child (with documentation if asked for), for every iteration order and all options, if and only if the configuration is well formed |
| `ConfigReplay.WellFormedRebuilds` | src/python/WMCore/Configuration.py:514-544 | the first half: a well-formed configuration is rebuilt |
| `ConfigReplay.RebuildsWellFormed` | src/python/WMCore/Configuration.py:514-544 | the other half: what is rebuilt was well formed: children still sections under their own names, components and webapps apart, their default fields present |
| `ConfigPrinted.RebuiltEverywhere` | src/python/WMCore/Configuration.py:514-544 | what a rebuilt configuration has in common with the saved one, field by field and at all depths: names, settings with their values, children, and the documentation if asked for |
| `ConfigReplay.RunPrint` | src/python/WMCore/Configuration.py:209-262 | running the lines printed for one section on any partial, undocumented copy of it completes the copy, whatever the iteration order |
| `ConfigReplay.RunUnder` | src/python/WMCore/Configuration.py:209-262 | lines aimed at a child, with its name put in front, change that child alone and as if they ran on it |
| `ConfigReplay.PrintableChildren` | src/python/WMCore/Configuration.py:209-262 | the printer succeeds only if every name listed as a child is still a section, at every depth |
| `ConfigPrinted.SectionStarts` | src/python/WMCore/Configuration.py:231-240 | the lines of a section start with its documentation, as a statement and as a comment, as the options say |
| `ConfigPrinted.SettingLines` | src/python/WMCore/Configuration.py:241-262 | for each setting there stand together, as the options say, its documentation as a comment, the assignment, and its documentation as a statement |
| `ConfigPrinted.TopLines` | src/python/WMCore/Configuration.py:525-544 | a top level section starts with the line for components, webapps or sections |
| `ConfigPrinted.NewComponent` | src/python/WMCore/Configuration.py:482-496 | a new component has the setting `componentDir`, not set, and nothing else |
| `ConfigPrinted.NewWebapp` | src/python/WMCore/Configuration.py:498-512 | a new webapp has the empty sections `Webtools`, `database` and `security`, and nothing else |
| `ConfigReplay.EditKeepsOk` | src/python/WMCore/Configuration.py:124-166 | no assignment of a value or of a section, no deletion and no method call, at any depth, breaks what the attribute methods keep: settings are the attributes, sections are listed as children, values have supported types |
| `ConfigReplay.EditKeepsWellFormedIff` | src/python/WMCore/Configuration.py:124-166 | which of these keep one section well formed: all but a section stored under another name than its own (or ill-formed itself) and a plain value assigned over a section |
| `ConfigEdits.EditKeepsConfIff` | src/python/WMCore/Configuration.py:124-166 | which keep a whole configuration well formed: those that keep the section well formed and, in a component or webapp itself, delete no default and store no section over `componentDir` |
| `ConfigEdits.CallKeepsIff` | src/python/WMCore/Configuration.py:467-512 | the same for every call a program can make: a name becomes a component or webapp harmlessly unless it is the other already, or its section has a child called `componentDir`, or a plain value for a default section |
| `ConfigEdits.CallToldIff` | src/python/WMCore/Configuration.py:514-544 | after one call on a well-formed configuration, saving and loading gives back what there is if and only if it is one of those calls, for every iteration order and all options |
| `ConfigEdits.ProgramsAreSaved` | src/python/WMCore/Configuration.py:467-544 | whatever such calls a program makes from an empty configuration on, in any number and order, saving and loading gives back what it made |
| `ConfigEdits.DeletedDefaultComesBack` | src/python/WMCore/Configuration.py:482-496 | a component without its default field, whose section is well formed: loading never gives it back |
| `ConfigReplay.ApplyKeepsOk` | src/python/WMCore/Configuration.py:195-207 | in particular no statement of a saved file breaks it |
| `ConfigReplay.RunLinesKeepsOk` | src/python/WMCore/Configuration.py:467-512 | the same for every sequence of lines of a configuration file, and no section, component or webapp is listed twice |
| `Configuration.ConfigSection.SetAttr` | src/python/WMCore/Configuration.py:124-153 | the whole new state; an unsupported value raises before anything changes |
| `ConfigPrinted.SupportedIff` | src/python/WMCore/Configuration.py:105-122 | a value is accepted if and only if nothing of a foreign type occurs in it, at any depth of its sequences and dictionaries |
| `Configuration.ConfigSection.DelAttr` | src/python/WMCore/Configuration.py:155-166 | the name is gone from settings, children and attributes; an unknown name is reported |
| `Configuration.ConfigSection.Section_` | src/python/WMCore/Configuration.py:195-207 | returns what is stored, or stores a new empty section |
| `Configuration.ConfigSection.Document_` | src/python/WMCore/Configuration.py:304-317 | the documentation of the section or of one setting, and nothing else |
| `Configuration.CallStore` | src/python/WMCore/Configuration.py:130-136 | storing a section object over whatever was there changes the tree of objects as the model changes its value |
| `Configuration.CallDelete` | src/python/WMCore/Configuration.py:155-166 | the same for deleting an attribute |
| `Configuration.Execute` | src/python/WMCore/Configuration.py:195-207 | following attributes to a section object and calling one of its methods changes the tree of objects as the model changes its value |
| `Configuration.Pythonise` | src/python/WMCore/Configuration.py:209-262 | the lines printed for a section object are those of its value, in the order in which the set of settings was visited |
| `Configuration.Configuration.Section_` | src/python/WMCore/Configuration.py:467-480 | returns the section, or appends a new one to the list |
| `Configuration.CallComponent` | src/python/WMCore/Configuration.py:482-496 | the section, its place in the list of components, and the default field the first time only |
| `Configuration.CallWebapp` | src/python/WMCore/Configuration.py:498-512 | the same for webapps and their three default sections |
| `Configuration.PythoniseConf` | src/python/WMCore/Configuration.py:514-544 | the file printed for the objects is the file of the model; it fails only if a child is no section any more |
| `Configuration.Load` | src/python/WMCore/Configuration.py:467-512 | running a file on a new object gives what the model gives, or fails when it does |
| `Configuration.SaveAndLoad` | src/python/WMCore/Configuration.py:514-544 | objects saved and loaded: the new objects hold the same configuration |
| `Md5Words.Add32Is` | src/html/ReqMgr/javascript/md5.js:174-176 | addition modulo 2^32 on the words of signed numbers |
| `Md5Words.Add32SplitIs` | src/html/ReqMgr/javascript/md5.js:179-183 | the second `add32`, by halves and carry, equals the first on all integers |
| `Md5Words.RotationIs` | src/html/ReqMgr/javascript/md5.js:79-82 | the two shifts and the or are a rotation |
| `Md5Js.CmnIs` | src/html/ReqMgr/javascript/md5.js:79-82 | the common step is the operation of RFC 1321, section 3.4 |
| `Md5Js.FfIs` | src/html/ReqMgr/javascript/md5.js:84-86 | first round operation of RFC 1321, section 3.4 |
| `Md5Js.GgIs` | src/html/ReqMgr/javascript/md5.js:88-90 | second round operation, although its terms are written in another order |
| `Md5Js.HhIs` | src/html/ReqMgr/javascript/md5.js:92-94 | third round operation |
| `Md5Js.IiIs` | src/html/ReqMgr/javascript/md5.js:96-98 | fourth round operation |
| `Md5Js.LineRunIs` | src/html/ReqMgr/javascript/md5.js:4-71 | any number of the lines of a round are as many steps of the standard |
| `Md5Js.AllLines` | src/html/ReqMgr/javascript/md5.js:4-71 | the 64 lines, with their shifts, words and constants, are the 64 steps |
| `Md5Sine.TableIsSine` | src/html/ReqMgr/javascript/md5.js:4-71 | the constants of the 64 lines, as a table: entry i is the integer part of 2^32 times the absolute value of the sine of i + 1, for any sine and cosine that obey the addition theorem and lie between the partial sums of their series (RFC 1321, section 3.4) |
| `Md5Laws.MixBit` | src/html/ReqMgr/javascript/md5.js:84-98 | bit by bit, what the functions of the four rounds decide |
| `Md5Laws.OperationUndone` | src/html/ReqMgr/javascript/md5.js:79-82 | undoing the rotation gives back what one operation adds up |
| `Md5Laws.RotationUndone` | src/html/ReqMgr/javascript/md5.js:79-82 | rotating by the rest of the word undoes a rotation |
| `Md5Laws.ShiftsInTurn` | src/html/ReqMgr/javascript/md5.js:4-71 | how far the lines of each round rotate |
| `Md5Laws.Order2` | src/html/ReqMgr/javascript/md5.js:21-36 | the order of the words in the second round; `Order1`, `Order3` and `Order4` are those of the others |
| `Md5Js.Md5cycle` | src/html/ReqMgr/javascript/md5.js:1-77 | the array of four numbers is changed in place as the compression of section 3.4 changes the buffer |
| `Md5Message.PackedWord` | src/html/ReqMgr/javascript/md5.js:139-142 | four bytes shifted and added are the little-endian word |
| `Md5Laws.BytesOfWord` | src/html/ReqMgr/javascript/md5.js:139-142 | the little-endian word of four bytes has those bytes |
| `Md5Laws.InitialBytes` | src/html/ReqMgr/javascript/md5.js:103-103 | the buffer starts as the bytes of RFC 1321, section 3.3 |
| `Md5Message.Md5blk` | src/html/ReqMgr/javascript/md5.js:136-145 | the sixteen words of a block |
| `Md5Message.OrByte` | src/html/ReqMgr/javascript/md5.js:109-111 | or-ing a shifted byte into a word adds it above what is there |
| `Md5Message.FillTail` | src/html/ReqMgr/javascript/md5.js:108-111 | the tail array holds the rest of the message, the byte 0x80 and zeros |
| `Md5Message.PaddedShort` | src/html/ReqMgr/javascript/md5.js:112-117 | up to 55 bytes left: one more block |
| `Md5Message.PaddedLong` | src/html/ReqMgr/javascript/md5.js:112-117 | more: two blocks |
| `Md5Message.LastBlockWords` | src/html/ReqMgr/javascript/md5.js:116-116 | writing the length into word 14 gives the words of the last padded block |
| `Md5Message.PaddingIsStandardIff` | src/html/ReqMgr/javascript/md5.js:108-117 | the padding is that of RFC 1321, sections 3.1 and 3.2, if and only if the length in bits is below 2^32 |
| `Md5Message.FoldBlock` | src/html/ReqMgr/javascript/md5.js:104-106 | one more whole block is one more compression in the fold |
| `Md5Message.Md5Tail` | src/html/ReqMgr/javascript/md5.js:107-117 | the part after the loop compresses the last block or the last two into the array, which the padding of the message ends with |
| `Md5Message.TailIsPadding` | src/html/ReqMgr/javascript/md5.js:107-117 | after the whole blocks of any message, that finishes the fold over the padded message, in the one-block and in the two-block case |
| `Md5Message.Md51` | src/html/ReqMgr/javascript/md5.js:100-119 | streaming and tail together are a fold of the compression over the padded message, for every length |
| `Md5Message.Md51IsDigest` | src/html/ReqMgr/javascript/md5.js:100-119 | for messages below 2^32 bits that fold is the buffer of RFC 1321, sections 3.1 to 3.4 |
| `Md5Message.Nibble` | src/html/ReqMgr/javascript/md5.js:153-154 | the shift and mask pick one hexadecimal digit, also of a negative number |
| `Md5Message.Rhex` | src/html/ReqMgr/javascript/md5.js:149-156 | the four bytes of a word, lowest first, in hexadecimal |
| `Md5Message.HexReadsBack` | src/html/ReqMgr/javascript/md5.js:147-156 | the hexadecimal text has two digits a byte and reads back as the bytes |
| `Md5Message.Md5` | src/html/ReqMgr/javascript/md5.js:158-166 | the text is the digest of RFC 1321, section 3.5, in hexadecimal |
| `Throttle.CountersExact` | src/python/Utils/Throttled.py:57-74 | in every interleaving of entries, rejections and exits, each counter is the number of threads with a positive nesting count that was made so for that user |
| `Throttle.StepKeeps` | src/python/Utils/Throttled.py:207-227 | every atomic step keeps that |
| `Throttle.BackToZeroIff` | src/python/Utils/Throttled.py:57-74 | with no thread inside, all counters are zero if and only if nothing was ever rejected |
| `Throttle.RejectionIsForever` | src/python/Utils/Throttled.py:57-67 | after a rejection the counter of the user the thread was counted for never reaches zero again, in any continuation |
| `Throttle.LockedOutIff` | src/python/Utils/Throttled.py:57-74 | all entries for a user are rejected in every continuation if and only if more than `limit` threads counted for that user were rejected or hold an entry that will be |
| `Throttle.RejectionsLockOut` | src/python/Utils/Throttled.py:57-74 | so limit + 1 threads rejected while counted for a user lock that user out for good |
| `Throttle.LockOutIsReached` | src/python/Utils/Throttled.py:57-74 | for every limit a run without any nesting after which a user is locked out for good |
| `Throttle.RefusedEntry` | src/python/Utils/Throttled.py:57-67 | an entry does not get in exactly when the counter it finds is above the limit, by whatever thread |
| `Throttle.CountersExactFromStart` | src/python/Utils/Throttled.py:57-74 | so in every run from the start, with no condition on the run, the counters are exact |
| `Throttle.CountedAreLimited` | src/python/Utils/Throttled.py:57-67 | no run, whatever users its threads serve in turn or nested, has more than limit + 1 threads inside for a user and counted for that user |
| `Throttle.ExcessIsForeign` | src/python/Utils/Throttled.py:57-67 | so more than limit + 1 threads are inside for a user only if some of them are counted for another, and by no more than there are of these |
| `Throttle.AtMostLimitAndDetours` | src/python/Utils/Throttled.py:57-67 | no run has more threads inside for a user than limit + 1 and the detours to that user: entries by a thread that is counted for another user at that moment |
| `Throttle.KeepsToIff` | src/python/Utils/Throttled.py:57-67 | exactly: all runs with at most k detours keep to m threads of a user inside if and only if m is at least limit + 1 + k, or the limit is negative |
| `Throttle.BoundIsReached` | src/python/Utils/Throttled.py:57-67 | the other half: for every limit and every k, a run with k detours and limit + 1 + k threads inside; one detour gives limit + 2 |
| `Throttle.AtMostLimitPlusOneIfGuarded` | src/python/Utils/Throttled.py:57-67 | if each entry finds its thread uncounted, or counted for the user it enters for, the limit holds for all threads |
| `Throttle.AtMostLimitPlusOne` | src/python/Utils/Throttled.py:57-67 | a special case: each thread always enters for the same user |
| `Throttle.NestedUsersAreNotLimited` | src/python/Utils/Throttled.py:207-217 | by one detour each, any number of threads can be inside for one user with its counter at zero, whatever the limit |
| `Throttle.UserThrottle.ThrottleContext` | src/python/Utils/Throttled.py:183-186 | the counter exists afterwards, and keeps its value if it did before |
| `Throttle.UserThrottle.IncUser` | src/python/Utils/Throttled.py:207-217 | the object moves as the state machine does on an entry |
| `Throttle.UserThrottle.DecUser` | src/python/Utils/Throttled.py:219-227 | the object moves as the state machine does on an exit |
| `Throttle.UserThrottle.EnterContext` | src/python/Utils/Throttled.py:57-67 | counting comes before the comparison with the limit, and stays when that rejects |
| `Transactions.InsideOpen` | src/python/WMCore/WMConnectionBase.py:131-158 | within an open transaction no nesting of blocks, exceptions and handlers ends it: the statements pile up in order and the database is untouched |
| `Transactions.OutermostBlock` | src/python/WMCore/WMConnectionBase.py:131-158 | an outermost block commits exactly the statements executed, in order, or leaves the database as it was, and closes the transaction |
| `Transactions.FromClosed` | src/python/WMCore/WMConnectionBase.py:73-164 | the same for whole programs with any number of blocks and statements outside of blocks |
| `Transactions.WritesRun` | src/python/WMCore/WMConnectionBase.py:79-102 | statements sent in turn last at once outside of blocks, and wait in order in an open transaction |
| `Transactions.BlockOfWrites` | src/python/WMCore/WMConnectionBase.py:131-158 | a block commits exactly what is sent in it, in order; with an exception before, or after, nothing |
| `Transactions.HandledInside` | src/python/WMCore/WMConnectionBase.py:131-158 | an exception handled inside the block keeps what was sent before it |
| `Transactions.HandledOutside` | src/python/WMCore/WMConnectionBase.py:131-158 | handled outside, the block is undone and what the handler sends lasts by itself |
| `Transactions.NestedSharesFate` | src/python/WMCore/WMConnectionBase.py:131-158 | what a nested block sent lasts or goes with the outermost one |
| `Transactions.NestedFailureIsKept` | src/python/WMCore/WMConnectionBase.py:131-158 | a nested block that fails is not undone if the outermost one handles the exception |
| `Transactions.FirstBlockOfWrites` | src/python/WMCore/WMConnectionBase.py:79-83 | in the first block of a thread what is sent lasts although the block fails |
| `Transactions.FirstBlockOfThread` | src/python/WMCore/WMConnectionBase.py:79-83 | in a thread without the attribute the first block behaves as if it were not there |
| `Transactions.AllOrNothingIff` | src/python/WMCore/WMConnectionBase.py:73-89 | outermost blocks are all or nothing if and only if the thread has a transaction object |
| `Transactions.WMConnectionBase.BeginTransaction` | src/python/WMCore/WMConnectionBase.py:73-89 | the object of the thread, and the flag returned, for all three states a thread can be in |
| `Transactions.WMConnectionBase.CommitTransaction` | src/python/WMCore/WMConnectionBase.py:106-116 | commits only for the opener |
| `Transactions.WMConnectionBase.RollbackTransaction` | src/python/WMCore/WMConnectionBase.py:161-164 | rolls back only for the opener |
| `Transactions.WMConnectionBase.RunProgram` | src/python/WMCore/WMConnectionBase.py:131-158 | running a program on the objects is running it in the model |
| `PSetTree.AddsAreLastWritesIff` | src/python/PSetTweaks/PSetTweak.py:173-193 | any sequence of calls succeeds and leaves exactly the last value of each name if and only if no name is a proper prefix of another |
| `PSetShapes.LastWritesIff` | src/python/PSetTweaks/PSetTweak.py:173-193 | the last value of a name is that of the last call for it |
| `PSetShapes.FirstParameter` | src/python/PSetTweaks/PSetTweak.py:182-193 | what the first call makes: the holder, its name, its list of one parameter, the value |
| `PSetShapes.NamesStartWithProcess` | src/python/PSetTweaks/PSetTweak.py:180-193 | a name that does not begin with `process` raises |
| `PSetTree.WalkSets` | src/python/PSetTweaks/PSetTweak.py:182-193 | one call raises exactly when it would step into a plain value; otherwise it sets its name, drops what hung below, and changes no other parameter |
| `PSetTree.AddAllOk` | src/python/PSetTweaks/PSetTweak.py:173-193 | whatever the calls, holders are named after their attributes and `parameters_` lists exactly the plain attributes |
| `PSetTree.LeavesApart` | src/python/PSetTweaks/PSetTweak.py:173-193 | no parameter lies below another |
| `PSetJson.CollectedFromTweak` | src/python/PSetTweaks/PSetTweak.py:114-151 | what is collected from the dictionaries of any tweak: each parameter with its value, and besides exactly what values that are dictionaries seem to list |
| `PSetJson.EntriesRaise` | src/python/PSetTweaks/PSetTweak.py:136-151 | collecting from the dictionaries of a tweak raises exactly when it would on one of its values |
| `PSetJson.QuietIff` | src/python/PSetTweaks/PSetTweak.py:136-151 | a value is harmless if and only if no dictionary in it lists a parameter |
| `PSetJson.RoundTripsIffQuiet` | src/python/PSetTweaks/PSetTweak.py:436-449 | writing a tweak as JSON and making a tweak of that gives the same parameters, in every order of adding them, if and only if no value lists parameters |
| `PSetJson.TweakRoundTrip` | src/python/PSetTweaks/PSetTweak.py:436-449 | for names none of which lies below another and harmless values: last writes, parameters and round trip all agree |
| `PSetJson.ApartRebuilds` | src/python/PSetTweaks/PSetTweak.py:446-448 | adding parameters none of which lies below another, in any order, leaves just those |
| `PSetJson.BelowBreaks` | src/python/PSetTweaks/PSetTweak.py:446-448 | if one does, some order of adding them raises |
| `PSetScript.PrefixSortsFirst` | src/python/PSetTweaks/PSetTweak.py:295-296 | sorted as dotted strings, no path comes before one of its proper prefixes |
| `PSetShapes.DottedSnoc` | src/python/PSetTweaks/PSetTweak.py:259-267 | dotted names put each further name behind a dot |
| `Sorting.TextLeqIff` | src/python/PSetTweaks/PSetTweak.py:295-295 | strings are ordered by the first character in which they differ, and after what they begin with |
| `PSetScript.SkeletonBuilds` | src/python/PSetTweaks/PSetTweak.py:290-299 | the sorted calls never name a holder that is not there yet and never replace one that is |
| `PSetScript.ScriptRebuilds` | src/python/PSetTweaks/PSetTweak.py:278-311 | running the script builds the same tree: every holder, its list of parameters in order, its values |
| `PSetHolders.Advance` | src/python/PSetTweaks/PSetTweak.py:183-193 | one turn of the loop over the names changes the holder objects as the model changes the tree |
| `PSetTweaks.PSetTweak.AddParameter` | src/python/PSetTweaks/PSetTweak.py:173-193 | the loop succeeds when the model does, and the objects hold the new tree |
| `PSetTweaks.PSetTweak.GetParameter` | src/python/PSetTweaks/PSetTweak.py:196-208 | for every name: finds the value of a parameter, the list and the name each holder keeps, or the holder itself, and raises exactly when there is nothing |
| `PSetTweaks.PSetTweak.Iterate` | src/python/PSetTweaks/PSetTweak.py:211-224 | the parameters of the listed holders, one holder after the other |
| `PSetTweaks.IterationIsLeaves` | src/python/PSetTweaks/PSetTweak.py:211-224 | iterating gives every parameter with its value and nothing else |
| `PSetTweaks.SetattrCalls` | src/python/PSetTweaks/PSetTweak.py:252-274 | one call for each prefix of the path but `process` |
| `PSetTweaks.PSetTweak.Pythonise` | src/python/PSetTweaks/PSetTweak.py:278-311 | running what is written gives the tree of the objects |
| `PSetTweaks.PSetTweak.JsonDictionary` | src/python/PSetTweaks/PSetTweak.py:326-335 | the dictionaries of the tree |
| `PSetShapes.HolderInJson` | src/python/PSetTweaks/PSetTweak.py:114-133 | under the names that lead to a holder stands a dictionary of its attributes, with the names of its parameters in order under `parameters_` |
| `PSetShapes.ParameterInJson` | src/python/PSetTweaks/PSetTweak.py:114-133 | each parameter has its value there |
| `PSetShapes.FoundInDictionary` | src/python/PSetTweaks/PSetTweak.py:136-151 | what is collected from a dictionary that lists names: what it has under them, and what is collected from the dictionaries in it; it raises for a listed name that is missing |
| `PSetShapes.StringsAreListsOfCharacters` | src/python/PSetTweaks/PSetTweak.py:141-144 | a string in the place of the list is taken apart into characters |
| `PSetTweaks.MakeTweakFromJSON` | src/python/PSetTweaks/PSetTweak.py:436-449 | adds exactly the parameters collected, in some order, and fails when collecting or adding does |
| `PSetTweaks.SaveAndMake` | src/python/PSetTweaks/PSetTweak.py:436-449 | objects written as JSON and made again: same parameters |
| `PSetVisitors.PSetLister.Call` | src/python/PSetTweaks/PSetTweak.py:83-97 | appends the paths of a holder and all below it, each once, with their parameters, and leaves the queue as it was |
| `PSetVisitors.JSONiser.Call` | src/python/PSetTweaks/PSetTweak.py:114-133 | enters the dictionary of a holder and all below it, and nothing else |
| `PSetVisitors.JSONiser.Dejson` | src/python/PSetTweaks/PSetTweak.py:136-151 | adds exactly what can be collected, under names below the queue; raises exactly when a dictionary lists wrongly |
| `WMTweak.ExpandParameter` | src/python/PSetTweaks/WMTweak.py:204-244 | exactly which names the result has, with which values; raises exactly when a star meets a holder that lists an attribute it does not have |
| `WMTweak.ReturnedIff` | src/python/PSetTweaks/WMTweak.py:204-244 | exactly which parameters are returned, component by component: found there, what the pattern says or listed under a star, up to the end of the pattern or to a component that is no star |
| `WMTweak.RaisesIff` | src/python/PSetTweaks/WMTweak.py:204-244 | exactly when the expansion raises, component by component |
| `WMTweak.MatchIff` | src/python/PSetTweaks/WMTweak.py:204-244 | a path matches if and only if it fits component by component |
| `WMTweak.ExpandsWholeMatches` | src/python/PSetTweaks/WMTweak.py:204-244 | every parameter whose whole path matches is returned with its value |
| `WMTweak.ResultsMatch` | src/python/PSetTweaks/WMTweak.py:204-244 | every result that is not `None` is an existing parameter whose path matches a prefix of the pattern, which is all of it or does not end with a star |
| `WMTweak.ResultsExist` | src/python/PSetTweaks/WMTweak.py:130-152 | a result is `None` exactly when `hasParameter` denies its name |
| `WMTweak.HasParameter` | src/python/PSetTweaks/WMTweak.py:130-152 | something that is not `None` is found along the names |
| `WMTweak.GetParameter` | src/python/PSetTweaks/WMTweak.py:155-173 | nothing exactly when nothing is found along the names, otherwise the value of what is found, or an exception if that has none |
| `WMTweak.Children` | src/python/PSetTweaks/WMTweak.py:216-242 | what one holder contributes to the next level and to the result, for a star and for a name |
| `SchemaOrder.OrderModules` | src/python/WMCore/WMInit.py:238-259 | reports the first unknown module; else returns the requested modules, each once, after all their dependencies; gives up only if there is no such order |
| `SchemaOrder.OrderExistsIff` | src/python/WMCore/WMInit.py:243-259 | there is an order if and only if every dependency is requested too and no module depends on itself, directly or indirectly |
| `SchemaOrder.OrderMeans` | src/python/WMCore/WMInit.py:243-259 | what an order is, in terms of places in the list |
| `SchemaOrder.UnrequestedIsNoCycle` | src/python/WMCore/WMInit.py:254-256 | a request without any cycle among the known modules for which no order exists, so that a circular dependency is reported |
| `SchemaOrder.StuckMeansNone` | src/python/WMCore/WMInit.py:254-256 | when every module left waits for something, no order exists |
| `ObjectSize.GetSize` | src/python/Utils/Utilities.py:179-208 | ends on every finite, possibly cyclic heap with the sizes of exactly the objects reached through objects that are not blacklisted, each counted once, or refuses a blacklisted object |
| `ObjectSize.SumTakes` | src/python/Utils/Utilities.py:203-204 | the sum does not depend on the order of counting |
| `ObjectSize.SumOfFew` | src/python/Utils/Utilities.py:195-204 | no objects have size 0, one has its own |
| `DependencyTree.WalkDepTree` | setup_build.py:21-52 | succeeds exactly when every system needed is known and no chain of dependencies is too long for the interpreter, and returns the contributions of exactly the systems needed |
| `DependencyTree.SomeDepthSufficesIff` | setup_build.py:21-52 | some depth is enough if and only if no system needed depends on itself |
| `SpecDeps.Deps.GetDepsRecursive` | bin/adhoc-scripts/ParseSpecCmsswdist.py:146-177 | exactly which specs are added to the set, for any depth, and exactly when the recursion ends well |
| `SpecDeps.PositiveDepth` | bin/adhoc-scripts/ParseSpecCmsswdist.py:160-168 | a depth d collects, for both values of `buildAllDep`, exactly what is selected in a file reached in fewer than d steps, and for all specs exactly those reached in 1 to d steps; it always ends, even around cycles |
| `SpecDeps.DeepEnough` | bin/adhoc-scripts/ParseSpecCmsswdist.py:160-168 | a depth of the number of files collects what an unlimited recursion would, and one more meets every missing file |
| `SpecDeps.NegativeDepth` | bin/adhoc-scripts/ParseSpecCmsswdist.py:160-168 | a negative depth collects what is selected in all files reached; the calls are nested without bound if and only if one of them reaches itself; and in some interpreter the recursion ends without an exception if and only if none does and none is missing |
| `Graphs.NoEscape` | src/python/WMCore/WMInit.py:254-256 | a finite set in which every node has a successor holds a cycle |
| `Graphs.EndlessIff` | setup_build.py:21-52 | chains of every length start at a node if and only if it reaches a cycle |
| `Graphs.ShortWay` | bin/adhoc-scripts/ParseSpecCmsswdist.py:174-175 | what is reached at all is reached in no more steps than there are nodes with successors, and in fewer if it is one of them |
| `Graphs.StepsArePath` | setup_build.py:21-52 | a number of steps is a path along the edges with one node more |
| `LumiRanges.CanonicalUnique` | src/couchapps/FWJRDump/lists/lumiList.js:21-42 | sorted ranges that neither overlap nor touch are determined by the numbers they cover |
| `LumiRanges.CompactionsAgree` | src/couchapps/WorkloadSummary/shows/lumiMissingByWorkflow.js:72-93 | any two compactions of the same numbers are equal |
| `LumiRanges.CompactExpanded` | src/couchapps/FWJRDump/_attachments/workflowSummary.js:118-140 | compacting what canonical ranges expand to gives them back |
| `LumiRanges.ExpandCompacted` | src/couchapps/FWJRDump/_attachments/workflowSummary.js:118-140 | expanding a compaction gives the list sorted and without duplicates |
| `LumiPages.Merge` | src/couchapps/FWJRDump/lists/lumiList.js:7-19 | the runs of all rows with exactly their numbers |
| `LumiPages.CompactList` | src/couchapps/FWJRDump/lists/lumiList.js:21-42 | the canonical ranges of a list with duplicates, and one pair of `NaN` for an empty list |
| `LumiPages.LumiList` | src/couchapps/FWJRDump/lists/lumiList.js:7-42 | the whole page: for each run of any row, the canonical ranges of exactly its numbers |
| `LumiPages.Gather` | src/couchapps/WorkloadSummary/shows/lumiMissingByWorkflow.js:18-62 | a key for each dataset that some task with errors writes to, and for each such task that writes to none; under each key and run exactly the numbers lost in some task reported there |
| `LumiPages.LostUnder` | src/couchapps/WorkloadSummary/shows/lumiMissingByWorkflow.js:18-62 | under a key is what was lost by the tasks that the dataset of that name comes from, and by the task of that name if no dataset comes from it |
| `LumiPages.LumiMissing` | src/couchapps/WorkloadSummary/shows/lumiMissingByWorkflow.js:18-93 | the whole page, for all keys or the one asked for: under each key canonical ranges of exactly what was lost in the tasks reported there |
| `LumiPages.BlocksOf` | src/couchapps/WorkloadSummary/shows/lumiMissingByWorkflow.js:72-93 | the canonical ranges of a set, none for an empty one |
| `LumiPages.RemoveArrayDuplicates` | src/couchapps/FWJRDump/_attachments/workflowSummary.js:34-55 | the same numbers in increasing order |
| `LumiPages.RenderRun` | src/couchapps/FWJRDump/_attachments/workflowSummary.js:260-282 | one run: the text of its canonical ranges, the last of which is kept; without numbers, that of the range kept before |
| `LumiPages.RenderRuns` | src/couchapps/FWJRDump/_attachments/workflowSummary.js:254-283 | all runs: the text of each one with numbers, and for each one without what was printed last for the run before, or an unset variable |
| `LumiPages.TextIsRightIff` | src/couchapps/FWJRDump/_attachments/workflowSummary.js:254-283 | the text of a run is that of its canonical ranges if and only if it has numbers |
| `LumiPages.TextReadsBack` | src/couchapps/FWJRDump/_attachments/workflowSummary.js:254-283 | the text of a run reads back as its numbers in increasing order, with a first and a last number exactly where there are several |
| `LumiPages.EmptyRunRepeats` | src/couchapps/FWJRDump/_attachments/workflowSummary.js:254-283 | any number of runs without numbers in a row repeat the last range printed before them |
| `LumiPages.EmptyRunsFirst` | src/couchapps/FWJRDump/_attachments/workflowSummary.js:254-283 | if there is none before, they print an unset variable |
| `LumiPages.StaleRange` | src/couchapps/FWJRDump/_attachments/workflowSummary.js:254-283 | the page for two runs, the second without numbers, gives the number of the first to both |
| `LumiPages.ExpandRanges` | src/couchapps/FWJRDump/_attachments/workflowSummary.js:118-140 | the numbers of the pairs, one after the other |
| `WorkQueue.WorkRestrictions` | src/couchapps/WorkQueue/lists/workRestrictions.js:50-152 | sends exactly the first `num_elem` rows that pass, in order, as one list, whatever the order of the sites |
| `WorkQueue.NeverSent` | src/couchapps/WorkQueue/lists/workRestrictions.js:60-140 | an element is never sent if no site that asks is allowed, if it is of another team or of no workflow asked for, or if data it insists on is at none of the sites |
| `WorkQueue.AlwaysPasses` | src/couchapps/WorkQueue/lists/workRestrictions.js:60-140 | it passes if one site that asks is allowed and has the data it insists on, and neither team nor workflows speak against it; with room for all rows it is sent |
| `WorkQueue.DeletedNeverSent` | src/couchapps/WorkQueue/lists/workRestrictions.js:60-66 | a row without a document is never sent |
| `WorkQueue.PassingConcat` | src/couchapps/WorkQueue/lists/workRestrictions.js:50-152 | rows pass one by one, in order |
| `WorkQueue.ListReads` | src/couchapps/WorkQueue/lists/workRestrictions.js:50-152 | the list reads as one of JSON, with a comma between any two documents |
| `WorkQueue.RunsAt` | src/couchapps/WorkQueue/lists/workRestrictions.js:80-140 | the checks for one site are exactly its being allowed and holding all the data insisted on |
| `WorkQueue.RunsSomewhere` | src/couchapps/WorkQueue/lists/workRestrictions.js:80-149 | the loop over the sites finds one if there is one |
| `WorkQueue.NoCommonSiteNeverSent` | src/couchapps/WorkQueue/lib/workqueue_utils.js:5-27 | an element without common sites for inputs, pileup, or parents it insists on is never sent, whatever sites ask |
| `WorkQueue.CommonSites` | src/couchapps/WorkQueue/lib/workqueue_utils.js:29-52 | the whole whitelist if each data item is at some site of it, else nothing |
| `WorkQueue.SitesHoldAllIff` | src/couchapps/WorkQueue/lib/workqueue_utils.js:5-52 | for any data and whitelist, trusted or not, the sites returned hold all the data if and only if there are none because some item is at no whitelisted site, or each item is at all whitelisted sites |
| `WorkQueue.SomeSites` | src/couchapps/WorkQueue/lib/workqueue_utils.js:29-52 | some sites are returned whenever a whitelisted site holds all the data, and with at most one item only then |
| `WorkQueue.MeansCommonIff` | src/couchapps/WorkQueue/lib/workqueue_utils.js:29-52 | for a given set of items, sites are returned exactly when one holds all of them, for all locations and whitelists, if and only if there is at most one item |
| `WorkQueue.CommonSitesAreNotCommon` | src/couchapps/WorkQueue/lib/workqueue_utils.js:29-52 | an element whose sites are returned although no site holds all its data |
| `WorkQueue.CommonInputDataSites` | src/couchapps/WorkQueue/lib/workqueue_utils.js:5-11 | the sites for the inputs |
| `WorkQueue.CommonInputParentDataSites` | src/couchapps/WorkQueue/lib/workqueue_utils.js:13-19 | the sites for the parents |
| `WorkQueue.CommonPileupDataSites` | src/couchapps/WorkQueue/lib/workqueue_utils.js:21-27 | the sites for the pileup |
| `Tail.LastOf` | src/python/Utils/FileTools.py:89-113 | whichever seeks succeed, the text is the last n lines of the file if and only if n is positive or the file empty; negative n is refused |
| `Tail.LastLinesAre` | src/python/Utils/FileTools.py:111-111 | the last n lines are an end of the file with n lines, or all of a shorter file |
| `Tail.LinesFrom` | src/python/Utils/FileTools.py:108-108 | from the start of any line on, the file has that line and those after it |
| `Tail.EnoughLines` | src/python/Utils/FileTools.py:99-109 | a suffix with more than n lines has the same last n lines as the file |
| `Tail.SameButFirst` | src/python/Utils/FileTools.py:99-109 | reading from anywhere, only the first line can be cut |
| `Tail.LinesAre` | src/python/Utils/FileTools.py:108-108 | the lines joined are the file, and newlines stand only at their ends |
| `ZipEncode.ZipEncodeStr` | src/python/Utils/Utilities.py:145-176 | the whole message, an exception without a rate, or the first round that fits; the loop is still running after some rounds if and only if none of these fits |
| `ZipEncode.LevelIsIgnored` | src/python/Utils/Utilities.py:170-174 | an encoder, a message and a level for which what comes back is not the truncated message at that level |
| `ZipEncode.CandidateIsPrefix` | src/python/Utils/Utilities.py:167-174 | with a positive step every round is a prefix of the message and the indicator |
| `ZipEncode.RoundIs` | src/python/Utils/Utilities.py:165-173 | how much of the message each round keeps: the estimate, and `steps` bytes less every time |
| `ZipEncode.IndicatorFits` | src/python/Utils/Utilities.py:171-174 | an indicator that fits by itself makes the loop end |
| `ZipEncode.EndsIff` | src/python/Utils/Utilities.py:171-174 | the loop ends if and only if it does within as many rounds as the message has bytes |
| `ZipEncode.EncodesPrefix` | src/python/Utils/Utilities.py:153-176 | what comes back fits and encodes the whole message or a prefix with the indicator |
| `ModuleIndex.CreateModulesTocFile` | doc/generate_modules.py:133-150 | the sorted names, and the lines of one pass over them |
| `ModuleIndex.IndexIsRightIff` | doc/generate_modules.py:141-148 | the pass leaves out exactly the names with an ancestor in the list if and only if, in sorted order, nothing else comes between a name and those below it |
| `ModuleIndex.IndexHolds` | doc/generate_modules.py:141-148 | what the index then holds: the names that do not begin with another name and a dot |
| `ModuleIndex.PlainNamesRight` | doc/generate_modules.py:141-148 | with letters, digits, underscores and dots it does |
| `ModuleIndex.BelowContiguous` | doc/generate_modules.py:141-148 | what sorts between such a name and one below it is below it too |
| `ModuleIndex.HyphenBreaksPass` | doc/generate_modules.py:141-148 | three names with a hyphen for which it does not |

## Left out

- Database, CouchDB, HTTP, Rucio, DBS, HTCondor and process handling: they depend on services.
- Pages and drawing in the browser, and regular expressions.
- `UserThrottleTime`: its counters depend on several readings of the clock in one call.
- Saved files as text: quoting, indentation and reading are modelled as statements and lines, so a value whose quoted form Python reads differently (a string with quotes in it) is not covered.
- Configuration: names that begin with `_internal_` or shadow a method, names that are not Python identifiers (`my-section`, or one with a dot), for which the saved lines mean something else or nothing, a section without a name, parent references, one section object stored in two places, `Configuration.__setattr__` and `__delattr__`, `ConfigurationEx`, merging with `+`, and the dictionary views.
- Md5: characters above 255, and which of the two `add32` the page chooses by digesting `hello`; both are proved equal.
- Md5Sine.TableIsSine: is for all functions that obey the addition theorem and lie between the partial sums of the series; that there are such functions is analysis, and not part of this model.
- Md5Message.Md51IsDigest: is for fewer than 2^32 bits, because `md51` writes only the lower word of the length. `PaddingIsStandardIff` shows that the padding is not that of the standard from there on; that the digests differ too is not shown, since it would need two messages known not to collide.
- Transactions: begin and commit called by hand around code that raises, and commits or rollbacks that fail.
- PSetTweaks.PSetTweak.AddParameter: names with a component `parameters_` or `psetName_`, which overwrite what the holder keeps there, and names of attributes that every Python object has, also in `GetParameter`.
- PSetTree.AddsAreLastWritesIff: asks for names below `process` without a later component `process`, which sends the walk back to the root.
- PSetJson.RoundTripsIffQuiet: asks that what values list has none of those special names either; dotted names are lists of components, so keys with dots inside values that are dictionaries are not covered.
- PSetJson.Raises: dictionaries whose keys are not strings.
- PSetVisitors.JSONiser.Call: asks that the dictionary has no entry under the name of the holder yet, as in every use here; dictionaries are passed and returned as values, and sharing one dictionary between two places is not modelled.
- WMTweak: configuration objects are values, since nothing here changes them; attributes of parameters other than those of holders, and `setParameter`.
- ObjectSize.GetSize: sizes and referents are given for a heap that does not change meanwhile.
- DependencyTree.WalkDepTree: missing keys of a system are empty sets; the nesting the interpreter allows is a parameter.
- SpecDeps.Deps.GetDepsRecursive: what a spec file requires is given, not parsed.
- LumiPages.LumiMissing: the document, which is a parameter, and the reply when there is none.
- WorkQueue.WorkRestrictions: reading the query, and replies to a query that cannot be read.
- Tail.LastOf: decoding; a successful seek continues at some character of the decoded text.
- ZipEncode.ZipEncodeStr: the estimate of the length by floating point division is a parameter, and the theorem holds for every estimate; a loop that never ends is one still running after any number of rounds.
- ModuleIndex.CreateModulesTocFile: the headings and the writing of the file.
