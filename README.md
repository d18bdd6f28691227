# Behavioral patterns: chain of responsibility and observer, modelled in Dafny

This project models two of the three demo programs of the repository:

- **Chain of responsibility** (`ChainOfResponsibility/ChainOfResponsibility.cpp`):
  a `LogMessage` pairs a severity (`WARNING`, `ERROR`, `FATAL_ERROR`, `UNKNOWN`) with a text.
  Four handler kinds are each bound to one severity. The warning handler writes the message and a
  newline to standard output. The usual-error handler overwrites its file with the message. The
  fatal and unknown handlers throw a runtime error. Handlers are linked with `setNextHandler`.
  `handleRequest` consumes a message of the handler's own severity and otherwise forwards it to the
  successor, or does nothing when there is none.
- **Observer** (`Observer/Observer.cpp`): `DataForObserving` keeps an ordered list of observer
  pointers. `addObserver` appends, `removeObserver` erases every equal entry, and `warning`, `error`
  and `fatalError` call one callback on every entry in order. Console, file and fatal observers each
  override one callback; the others do nothing.

Files:

- `io.dfy` (module `Io`): writes to standard output and to files as values (`Effect`), and a
  `World` (standard output so far, and file contents) that they act on, with truncate-mode file
  semantics.
- `chain.dfy` (module `ChainOfResponsibility`):
  - `Dispatch` is the pure decision procedure over a chain given as a sequence of handlers in
    link order.
  - The class `Handlers` holds the handler objects and their successor links. `SetNextHandler`
    changes the links in place. `HandleRequest` follows them recursively and is proved equal to
    `Dispatch` over the chain it walks.
  - A thrown error is the outcome `Raised(text)`.
- `observer.dfy` (module `Observers`):
  - Observers are objects, so the list compares them by identity, as the source compares
    pointers.
  - The class `DataForObserving` keeps the list in a sequence field.
  - `Publish` loops over the list and returns one `Call` per entry: the observer called and the
    writes its callback made.

A message that reaches the end of a chain with no handler bound to its severity is dropped. This
includes fatal and unknown messages: a fatal-error or unknown-message handler that does not match
and has no successor does nothing
(ChainOfResponsibility/ChainOfResponsibility.cpp:105-108, 129-132; `MismatchForwards`).

Links may form a loop, since `setNextHandler` accepts any handler. A message offered to a loop is
consumed when it meets a handler bound to its severity. When no handler on the loop is bound to it,
the calls forward it round the loop and never return; the model gives the outcome `Diverges` then
(`HandleRequest`, `CycleNeverStops`, `CyclicChain`).

## Model

| member | source | states |
|---|---|---|
| `Io.WriteSemantics` | ChainOfResponsibility/ChainOfResponsibility.cpp:77-78 | a file write leaves exactly the written text in the file, whatever it held, creates no other file, and touches neither standard output nor any other file; a console write appends to standard output and leaves files alone |
| `Io.RunConsole` | Observer/Observer.cpp:76-82 | a trace of writes appends to standard output exactly the concatenation of its console texts, in order; `Observers.Demo` uses it for the standard output of a warning publication |
| `Io.LastWriteWins` | Observer/Observer.cpp:53-54 | after any trace that ends with a write to a file, that file holds exactly the last text written |
| `ChainOfResponsibility.MessageAccessors` | ChainOfResponsibility/ChainOfResponsibility.cpp:17-31 | `Type()` and `Message()` return the severity and text the message was built with |
| `ChainOfResponsibility.Bound` | ChainOfResponsibility/ChainOfResponsibility.cpp:51 | the severity test each handler makes before acting (also lines 75, 100, 124); it has no contract of its own: `Dispatch`, `MatchConsumes`, `MismatchForwards` and `DemoChainCoversEverySeverity` state what it decides |
| `ChainOfResponsibility.Consume` | ChainOfResponsibility/ChainOfResponsibility.cpp:49-133 | a handler given a message of its own severity always acts (a write or a raised error): it neither drops the message nor passes it on |
| `ChainOfResponsibility.Dispatch` | ChainOfResponsibility/ChainOfResponsibility.cpp:49-133 | offering a message along a chain does nothing exactly when no handler of the chain is bound to its severity (both directions), and always returns |
| `ChainOfResponsibility.DispatchDecided` | ChainOfResponsibility/ChainOfResponsibility.cpp:51-54 | once a handler of a chain has acted on a message, handlers appended after the chain change nothing |
| `ChainOfResponsibility.Prefix` | ChainOfResponsibility/ChainOfResponsibility.cpp:55-58 | the first n handlers met from handler i start at i and follow the successor links, and are fewer than n only when they reach a handler with no successor |
| `ChainOfResponsibility.PrefixGrows` | ChainOfResponsibility/ChainOfResponsibility.cpp:55-58 | following the links further only extends the walk, and a walk that reached a handler with no successor stays as it is |
| `ChainOfResponsibility.DecidedOnPrefix` | ChainOfResponsibility/ChainOfResponsibility.cpp:51-58 | when the first handlers of a walk already acted on the message, the handlers met later do not change the outcome |
| `ChainOfResponsibility.StopsOnce` | ChainOfResponsibility/ChainOfResponsibility.cpp:49-133 | once the walk from a handler has stopped, because a handler acted or the chain ended, walking further keeps it stopped with the same outcome |
| `ChainOfResponsibility.ForwardStep` | ChainOfResponsibility/ChainOfResponsibility.cpp:55-58 | a handler not bound to the message's severity hands it on unchanged: one step more from it is the same as starting at its successor |
| `ChainOfResponsibility.CycleWalk` | ChainOfResponsibility/ChainOfResponsibility.cpp:44-58 | from a handler of a set closed under the successor links, the walk of any length n has exactly n handlers, all in the set: it never reaches an end |
| `ChainOfResponsibility.CycleNeverStops` | ChainOfResponsibility/ChainOfResponsibility.cpp:44-58 | from any handler of a loop of links on which no handler is bound to the message's severity, the walk never stops: no handler acts and no end is reached |
| `ChainOfResponsibility.LoopBack` | ChainOfResponsibility/ChainOfResponsibility.cpp:55-58 | a walk that returns to a handler it already passed, with no handler bound to the severity met so far, never stops from that handler |
| `ChainOfResponsibility.ForwardNeverStops` | ChainOfResponsibility/ChainOfResponsibility.cpp:55-58 | a non-matching handler whose successor's walk never stops has a walk that never stops either |
| `ChainOfResponsibility.Handlers.HandleFrom` | ChainOfResponsibility/ChainOfResponsibility.cpp:49-133 | checks severity, then successor, as each handler does; when it stops, the result is `Dispatch` over the handlers walked, and when it reaches a handler already passed, the result is `Diverges` and the walk provably never stops |
| `ChainOfResponsibility.Handlers.HandleRequest` | ChainOfResponsibility/ChainOfResponsibility.cpp:49-133 | for any links, loops included: the outcome is `Diverges` exactly when the walk from the handler never meets a bound handler or the end of the chain, and otherwise it is `Dispatch` over the handlers walked up to any point after it stopped |
| `ChainOfResponsibility.CyclicChain` | ChainOfResponsibility/ChainOfResponsibility.cpp:44-59 | with a warning handler and a usual-error handler linked to each other, a warning is still written to the console, and a fatal error goes round the loop for ever |
| `ChainOfResponsibility.ClearedLink` | ChainOfResponsibility/ChainOfResponsibility.cpp:44-58 | a fatal handler linked to a warning handler passes a warning on to be written; after its link is set to null it drops the same warning |
| `ChainOfResponsibility.MatchConsumes` | ChainOfResponsibility/ChainOfResponsibility.cpp:49-133 | a handler bound to the message's severity consumes it; the outcome is that handler's action whatever follows it, so the message is not forwarded |
| `ChainOfResponsibility.WarnHandlerWritesLine` | ChainOfResponsibility/ChainOfResponsibility.cpp:49-59 | a warning at a warning handler is one console write of the message followed by a newline |
| `ChainOfResponsibility.UsualHandlerOverwritesFile` | ChainOfResponsibility/ChainOfResponsibility.cpp:73-84 | an error at a usual-error handler is one write to that handler's path, leaving the file holding exactly the message, with no newline and the old content gone, and standard output unchanged |
| `ChainOfResponsibility.FatalHandlerRaises` | ChainOfResponsibility/ChainOfResponsibility.cpp:98-109 | a fatal error at a fatal-error handler raises `"Fatal error: "` followed by the message |
| `ChainOfResponsibility.UnknownHandlerRaises` | ChainOfResponsibility/ChainOfResponsibility.cpp:122-133 | an unknown message at an unknown-message handler raises `"Unknown message: "` followed by the message |
| `ChainOfResponsibility.MismatchForwards` | ChainOfResponsibility/ChainOfResponsibility.cpp:55-58 | a handler of any of the four kinds whose severity does not match forwards the identical message to the rest of the chain, and does nothing when there is no successor; the same holds at lines 80-83, 105-108 and 129-132 |
| `ChainOfResponsibility.FirstMatchDecides` | ChainOfResponsibility/ChainOfResponsibility.cpp:49-133 | when handler k is the first in link order bound to the message's severity, the outcome is handler k's action and no other handler acts |
| `ChainOfResponsibility.OutcomeComesFromFirstMatch` | ChainOfResponsibility/ChainOfResponsibility.cpp:49-133 | whenever something happens, it is the action of the first handler in link order bound to the message's severity |
| `ChainOfResponsibility.ReorderKeepsOutcome` | ChainOfResponsibility/ChainOfResponsibility.cpp:153-155 | linking the same handlers in another order gives the same outcome for a message whose severity only one handler is bound to |
| `ChainOfResponsibility.Handlers.constructor` | ChainOfResponsibility/ChainOfResponsibility.cpp:148-151 | creates the handlers of the given kinds, none with a successor |
| `ChainOfResponsibility.Handlers.SetNextHandler` | ChainOfResponsibility/ChainOfResponsibility.cpp:44-47 | sets or clears (given `None`, the null pointer) the successor of one handler, and leaves every other link and every handler's kind as it was; the same holds at lines 68-71, 93-96 and 117-120 |
| `ChainOfResponsibility.DemoChainCoversEverySeverity` | ChainOfResponsibility/ChainOfResponsibility.cpp:148-155 | the demo chain fatal, usual, warning, unknown has exactly one handler per severity, so no message is dropped |
| `ChainOfResponsibility.Demo` | ChainOfResponsibility/ChainOfResponsibility.cpp:139-160 | the three demo messages give, in order, the console write `"Just a warning\n"`, the file `DataFile.txt` holding `"The most common mistake."`, and `Raised("Fatal error: Everything is broken!")` |
| `ChainOfResponsibility.DemoWalk` | ChainOfResponsibility/ChainOfResponsibility.cpp:148-155 | the demo's links, walked from the fatal handler, meet fatal, usual, warning and unknown in that order, and every message stops on them |
| `ChainOfResponsibility.DemoOutcomes` | ChainOfResponsibility/ChainOfResponsibility.cpp:143-160 | along the demo chain, the demo warning is written to the console with a newline, the demo error overwrites `DataFile.txt`, and the demo fatal error raises `"Fatal error: Everything is broken!"` |
| `Observers.Observer.constructor` | Observer/Observer.cpp:15-55 | an observer object keeps the kind it was created with |
| `Observers.Reaction` | Observer/Observer.cpp:6-55 | the writes each observer callback makes, overridden (lines 20-23, 34-38, 49-55) or default (lines 10-12); it has no contract of its own: `ReactionSelective`, `ConsoleObserverRun`, `FileObserverRun` and `FatalObserverRun` state its properties |
| `Observers.ReactionSelective` | Observer/Observer.cpp:6-55 | an observer writes something exactly for its own event (warning for console, error for file, fatal error for fatal), the default callbacks write nothing, every write carries the message verbatim, and file writes go to the observer's own path |
| `Observers.ConsoleObserverRun` | Observer/Observer.cpp:20-23 | a console observer's warning callback appends the message, with nothing added, to standard output and leaves every file as it was |
| `Observers.FileObserverRun` | Observer/Observer.cpp:34-38 | a file observer's error callback leaves its file holding exactly the message, whatever it held before, and standard output unchanged |
| `Observers.FatalObserverRun` | Observer/Observer.cpp:49-55 | a fatal observer's fatal-error callback first appends the message to standard output and then overwrites its file with it |
| `Observers.Broadcast` | Observer/Observer.cpp:76-97 | a publication makes exactly one call per registered entry, in registration order, each doing what that entry's kind does for the event |
| `Observers.BroadcastTargets` | Observer/Observer.cpp:76-97 | the observers called are exactly the list, in order, so an observer registered twice is called twice |
| `Observers.BroadcastSnoc` | Observer/Observer.cpp:65-97 | registering one more observer adds exactly one call, for that observer, at the end of every publication |
| `Observers.Without` | Observer/Observer.cpp:70-74 | removal leaves no entry equal to the observer, keeps every other entry with its multiplicity, and shortens the list by the number of occurrences removed |
| `Observers.WithoutAppend` | Observer/Observer.cpp:70-74 | removal keeps the relative order of the remaining entries: removing from a concatenation removes from each part |
| `Observers.WithoutAbsent` | Observer/Observer.cpp:70-74 | removing an observer that is not registered leaves the list unchanged |
| `Observers.WithoutIdempotent` | Observer/Observer.cpp:70-74 | removing the same observer twice is the same as removing it once |
| `Observers.AddThenRemove` | Observer/Observer.cpp:65-74 | adding an observer and then removing it is the same as removing it from the list before the addition |
| `Observers.RemovedIsSilent` | Observer/Observer.cpp:70-97 | after an observer is removed, no publication calls it, and every other entry is still called as often as before |
| `Observers.DataForObserving.constructor` | Observer/Observer.cpp:101 | a new publisher has no observers |
| `Observers.DataForObserving.AddObserver` | Observer/Observer.cpp:65-68 | appends the observer; the length grows by one and earlier entries keep their positions |
| `Observers.DataForObserving.RemoveObserver` | Observer/Observer.cpp:70-74 | the new list is the old one with every entry equal to the observer removed, order kept, and is shorter by its number of occurrences |
| `Observers.DataForObserving.Publish` | Observer/Observer.cpp:76-97 | returns the calls of `Broadcast` over the current list and, having no modifies clause, leaves the list unchanged |
| `Observers.DataForObserving.Warning` | Observer/Observer.cpp:76-82 | calls the warning callback on every entry, in order |
| `Observers.DataForObserving.Error` | Observer/Observer.cpp:83-89 | calls the error callback on every entry, in order |
| `Observers.DataForObserving.FatalError` | Observer/Observer.cpp:91-97 | calls the fatal-error callback on every entry, in order |
| `Observers.Demo` | Observer/Observer.cpp:104-119 | with a console, a file and a fatal observer registered (three distinct objects, the latter two on `DataFile.txt`), the warning `"My Warning!"` calls each of them once, in that order, and the only write is the console write `"My Warning!"`, so standard output gains exactly that text and no file changes |

## Left out

- `Command/Command.cpp`: it is only a console write and a file write called in order, with no decision logic to state.
- Real stream and file I/O: writes are `Effect` values. `std::endl` is modelled as a `"\n"` in the text; its flush is not modelled. A file that cannot be opened is not modelled, and the source does not handle it either.
- C++ exceptions: `throw std::runtime_error` is the outcome `Raised(text)`. The top-level `try`/`catch` that prints `err.what()` (ChainOfResponsibility/ChainOfResponsibility.cpp:162-165) is not modelled. A raise stopping the later requests of the same `try` block is not modelled either: `Demo` returns each request's outcome.
- `nextHandler` is null for the handlers created by `std::make_unique<T>()`, which value-initialises them (ChainOfResponsibility/ChainOfResponsibility.cpp:148, 150, 151). `UsualError`'s own constructor (line 67) leaves it indeterminate until `setNextHandler` is called. Here every handler starts with `None`, so an unlinked usual-error handler drops a message where the source would read an indeterminate pointer; the demo links it (line 154) before any message is offered.
- Pointer aliasing and dangling handlers: handlers are numbered and linked by index. A loop of links is modelled: the walk remembers the handlers it has passed, and a message that comes back to one of them without having been consumed yields `Diverges`, where the source recurses until the stack is exhausted. How the source fails then is not modelled.
- Virtual dispatch and inheritance: they become closed datatypes (`Handler`, `Kind`) and a `match`.
- The numeric values of `ErrorType` (0 to 3): nothing in the source uses them.
- `warning`, `error` and `fatalError` are three copies of one loop. Here they share `Publish`, with the event as a parameter.
- `std::remove` followed by `erase` is the function `Without`, assigned to the list at once. The element moves that `std::remove` makes inside the vector are not modelled, only the list it leaves.
- Observers writing to an arbitrary `std::ostream`: every stream the demo passes is `std::cout`, so console writes go to standard output.
