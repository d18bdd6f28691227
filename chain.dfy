/** The chain-of-responsibility demo: four kinds of handler, each bound to one
    severity, linked one to the next. A message offered to a handler is
    consumed there when the severities match and passed on unchanged to the
    successor otherwise; a handler with no successor drops it. */
module ChainOfResponsibility {
  import opened Io

  datatype Option<T> = None | Some(value: T)

  /** The severity of a log message. */
  datatype ErrorType = Warning | Error | FatalError | Unknown

  /** A log message: a severity and a text, both fixed at construction. */
  datatype LogMessage = LogMessage(errorType: ErrorType, logMes: string)
  {
    function Type(): ErrorType { errorType }
    function Message(): string { logMes }
  }

  /** The four handler kinds; a usual-error handler carries the path of the file it writes. */
  datatype Handler = WarnHandler | UsualHandler(path: string) | FatalHandler | UnknownHandler

  /** What handling a message amounts to: one write, a raised runtime error
      carrying a text, nothing at all, or a message passed round a loop of
      handlers none of which is bound to its severity, so that the calls never return. */
  datatype Outcome = Performed(effect: Effect) | Raised(what: string) | Dropped | Diverges

  /** The one severity a handler consumes. */
  function Bound(h: Handler): ErrorType
  {
    match h
    case WarnHandler => Warning
    case UsualHandler(_) => Error
    case FatalHandler => FatalError
    case UnknownHandler => Unknown
  }

  /** What a handler does with a message of its own severity and text `text`:
      a warning handler writes the line to standard output, a usual-error handler
      overwrites its file, the fatal and unknown handlers raise an error. */
  function Consume(h: Handler, text: string): (o: Outcome)
    ensures o != Dropped && o != Diverges
  {
    match h
    case WarnHandler => Performed(Console(text + "\n"))
    case UsualHandler(path) => Performed(FileWrite(path, text))
    case FatalHandler => Raised("Fatal error: " + text)
    case UnknownHandler => Raised("Unknown message: " + text)
  }

  /** Offers `msg` to the handlers of `chain` in link order. The result is
      Dropped exactly when no handler in the chain is bound to the message's severity. */
  function Dispatch(chain: seq<Handler>, msg: LogMessage): (o: Outcome)
    ensures o == Dropped <==> forall k :: 0 <= k < |chain| ==> Bound(chain[k]) != msg.Type()
    ensures o != Diverges
    decreases |chain|
  {
    if chain == [] then Dropped
    else if Bound(chain[0]) == msg.Type() then Consume(chain[0], msg.Message())
    else Dispatch(chain[1..], msg)
  }

  /** The accessors of a message give back exactly what it was built from. */
  lemma MessageAccessors(t: ErrorType, text: string)
    ensures LogMessage(t, text).Type() == t
    ensures LogMessage(t, text).Message() == text
  {
  }

  /** A handler bound to the message's severity consumes it, and no handler after it runs:
      the outcome does not depend on the rest of the chain. */
  lemma MatchConsumes(h: Handler, rest: seq<Handler>, msg: LogMessage)
    requires Bound(h) == msg.Type()
    ensures Dispatch([h] + rest, msg) == Consume(h, msg.Message())
  {
  }

  /** A warning reaching a warning handler is written to standard output, followed by a newline. */
  lemma WarnHandlerWritesLine(rest: seq<Handler>, text: string)
    ensures Dispatch([WarnHandler] + rest, LogMessage(Warning, text)) == Performed(Console(text + "\n"))
  {
  }

  /** An error reaching a usual-error handler overwrites that handler's file:
      afterwards the file holds exactly the message, with no newline, whatever it held before. */
  lemma UsualHandlerOverwritesFile(w: World, path: string, rest: seq<Handler>, text: string)
    ensures Dispatch([UsualHandler(path)] + rest, LogMessage(Error, text)) == Performed(FileWrite(path, text))
    ensures path in Perform(w, FileWrite(path, text)).files
    ensures Perform(w, FileWrite(path, text)).files[path] == text
    ensures Perform(w, FileWrite(path, text)).stdout == w.stdout
  {
    WriteSemantics(w, FileWrite(path, text));
  }

  /** A fatal error reaching a fatal-error handler raises "Fatal error: " followed by the message. */
  lemma FatalHandlerRaises(rest: seq<Handler>, text: string)
    ensures Dispatch([FatalHandler] + rest, LogMessage(FatalError, text)) == Raised("Fatal error: " + text)
  {
  }

  /** An unknown message reaching an unknown-message handler raises "Unknown message: " followed by the message. */
  lemma UnknownHandlerRaises(rest: seq<Handler>, text: string)
    ensures Dispatch([UnknownHandler] + rest, LogMessage(Unknown, text)) == Raised("Unknown message: " + text)
  {
  }

  /** A handler of any kind that is not bound to the message's severity passes the
      very same message on to its successor, and does nothing when it has none;
      the fatal and unknown handlers raise nothing in that case. */
  lemma MismatchForwards(h: Handler, rest: seq<Handler>, msg: LogMessage)
    requires Bound(h) != msg.Type()
    ensures Dispatch([h] + rest, msg) == Dispatch(rest, msg)
    ensures rest == [] ==> Dispatch([h] + rest, msg) == Dropped
  {
    assert ([h] + rest)[1..] == rest;
  }

  /** The first handler in link order bound to the message's severity decides the
      outcome; the handlers before it only forward and the ones after it never run. */
  lemma {:induction false} FirstMatchDecides(chain: seq<Handler>, msg: LogMessage, k: nat)
    requires k < |chain| && Bound(chain[k]) == msg.Type()
    requires forall j :: 0 <= j < k ==> Bound(chain[j]) != msg.Type()
    ensures Dispatch(chain, msg) == Consume(chain[k], msg.Message())
    decreases k
  {
    if k > 0 {
      assert Bound(chain[0]) != msg.Type();
      FirstMatchDecides(chain[1..], msg, k - 1);
    }
  }

  /** Whenever something happens, it is what some handler of the chain bound to the
      message's severity does, and that handler is the first such one in link order. */
  lemma {:induction false} OutcomeComesFromFirstMatch(chain: seq<Handler>, msg: LogMessage)
    requires Dispatch(chain, msg) != Dropped
    ensures exists k :: 0 <= k < |chain| && Bound(chain[k]) == msg.Type()
              && (forall j :: 0 <= j < k ==> Bound(chain[j]) != msg.Type())
              && Dispatch(chain, msg) == Consume(chain[k], msg.Message())
    decreases |chain|
  {
    if Bound(chain[0]) == msg.Type() {
      assert Dispatch(chain, msg) == Consume(chain[0], msg.Message());
    } else {
      OutcomeComesFromFirstMatch(chain[1..], msg);
      var k :| 0 <= k < |chain[1..]| && Bound(chain[1..][k]) == msg.Type()
                 && (forall j :: 0 <= j < k ==> Bound(chain[1..][j]) != msg.Type())
                 && Dispatch(chain[1..], msg) == Consume(chain[1..][k], msg.Message());
      assert Bound(chain[k + 1]) == msg.Type();
      assert forall j :: 0 <= j < k + 1 ==> Bound(chain[j]) != msg.Type() by {
        forall j | 0 <= j < k + 1 ensures Bound(chain[j]) != msg.Type() {
          if j > 0 { assert chain[j] == chain[1..][j - 1]; }
        }
      }
    }
  }

  /** Only one handler value in the chain is bound to severity `t` (it may occur several times). */
  ghost predicate SingleHandlerFor(chain: seq<Handler>, t: ErrorType)
  {
    forall h1, h2 :: h1 in chain && h2 in chain && Bound(h1) == t && Bound(h2) == t ==> h1 == h2
  }

  /** Reordering the chain changes which handler sees a message first, but not the
      outcome, as long as one handler alone is bound to the message's severity. */
  lemma ReorderKeepsOutcome(c1: seq<Handler>, c2: seq<Handler>, msg: LogMessage)
    requires multiset(c1) == multiset(c2)
    requires SingleHandlerFor(c1, msg.Type())
    ensures Dispatch(c1, msg) == Dispatch(c2, msg)
  {
    forall h ensures h in c1 <==> h in c2 {
      assert h in c1 <==> h in multiset(c1);
      assert h in c2 <==> h in multiset(c2);
    }
    if Dispatch(c1, msg) != Dropped {
      OutcomeComesFromFirstMatch(c1, msg);
      var k1 :| 0 <= k1 < |c1| && Bound(c1[k1]) == msg.Type() && Dispatch(c1, msg) == Consume(c1[k1], msg.Message());
      assert c1[k1] in c2;
      OutcomeComesFromFirstMatch(c2, msg);
      var k2 :| 0 <= k2 < |c2| && Bound(c2[k2]) == msg.Type() && Dispatch(c2, msg) == Consume(c2[k2], msg.Message());
      assert c2[k2] in c1;
    } else {
      forall k | 0 <= k < |c2| ensures Bound(c2[k]) != msg.Type() {
        assert c2[k] in c1;
      }
    }
  }

  /** A message that some handler of a chain has acted on is not affected by the
      handlers that follow. */
  lemma {:induction false} DispatchDecided(a: seq<Handler>, b: seq<Handler>, msg: LogMessage)
    requires Dispatch(a, msg) != Dropped
    ensures Dispatch(a + b, msg) == Dispatch(a, msg)
    decreases |a|
  {
    assert (a + b)[0] == a[0];
    if Bound(a[0]) != msg.Type() {
      assert (a + b)[1..] == a[1..] + b;
      DispatchDecided(a[1..], b, msg);
    }
  }

  /** Every successor link points at an existing handler. */
  predicate LinksInRange(next: seq<Option<nat>>)
  {
    forall k :: 0 <= k < |next| && next[k].Some? ==> next[k].value < |next|
  }

  /** One kind per handler, and every link in range. */
  predicate WellFormed(kinds: seq<Handler>, next: seq<Option<nat>>)
  {
    |next| == |kinds| && LinksInRange(next)
  }

  /** The handler numbers below `n`. */
  function Below(n: nat): (s: set<nat>)
    ensures forall k: nat :: k in s <==> k < n
  {
    if n == 0 then {} else Below(n - 1) + {n - 1}
  }

  /** The walk `p` stopped at a handler without successor. */
  predicate Ends(next: seq<Option<nat>>, p: seq<nat>)
  {
    p != [] && p[|p| - 1] < |next| && next[p[|p| - 1]] == None
  }

  /** The first `n` handlers met when following successor links from handler `i`,
      or all of them when a handler without successor comes sooner. */
  function Prefix(next: seq<Option<nat>>, i: nat, n: nat): (p: seq<nat>)
    requires LinksInRange(next) && i < |next|
    ensures |p| <= n
    ensures n > 0 ==> |p| > 0 && p[0] == i
    ensures forall k :: 0 <= k < |p| ==> p[k] < |next|
    ensures forall k :: 0 <= k < |p| - 1 ==> next[p[k]] == Some(p[k + 1])
    ensures |p| < n ==> Ends(next, p)
    decreases n
  {
    if n == 0 then []
    else match next[i]
      case None => [i]
      case Some(j) => [i] + Prefix(next, j, n - 1)
  }

  /** The handlers at the given indices. */
  function Project(kinds: seq<Handler>, p: seq<nat>): (chain: seq<Handler>)
    requires forall k :: 0 <= k < |p| ==> p[k] < |kinds|
    ensures |chain| == |p| && forall k :: 0 <= k < |p| ==> chain[k] == kinds[p[k]]
  {
    seq(|p|, k requires 0 <= k < |p| => kinds[p[k]])
  }

  /** The first `n` handlers a message offered to handler `i` may pass through, in link order. */
  function Steps(kinds: seq<Handler>, next: seq<Option<nat>>, i: nat, n: nat): seq<Handler>
    requires WellFormed(kinds, next) && i < |next|
  {
    Project(kinds, Prefix(next, i, n))
  }

  /** Within its first `n` handlers the walk from handler `i` either meets a
      handler bound to the message's severity or reaches the end of the chain. */
  predicate Stops(kinds: seq<Handler>, next: seq<Option<nat>>, i: nat, n: nat, msg: LogMessage)
    requires WellFormed(kinds, next) && i < |next|
  {
    Dispatch(Steps(kinds, next, i, n), msg) != Dropped || Ends(next, Prefix(next, i, n))
  }

  /** Walking further only extends the walk, and a walk that reached the end of
      the chain stays as it is. */
  lemma {:induction false} PrefixGrows(next: seq<Option<nat>>, i: nat, n: nat, m: nat)
    requires LinksInRange(next) && i < |next| && n <= m
    ensures |Prefix(next, i, n)| <= |Prefix(next, i, m)|
    ensures Prefix(next, i, n) == Prefix(next, i, m)[..|Prefix(next, i, n)|]
    ensures Ends(next, Prefix(next, i, n)) ==> Prefix(next, i, m) == Prefix(next, i, n)
    decreases n
  {
    if n > 0 {
      match next[i]
      case None =>
      case Some(j) =>
        PrefixGrows(next, j, n - 1, m - 1);
    }
  }

  /** Handlers added after a chain that already decided do not change its outcome. */
  lemma DecidedOnPrefix(kinds: seq<Handler>, p: seq<nat>, q: seq<nat>, msg: LogMessage)
    requires |p| <= |q| && p == q[..|p|]
    requires forall k :: 0 <= k < |q| ==> q[k] < |kinds|
    requires Dispatch(Project(kinds, p), msg) != Dropped
    ensures Dispatch(Project(kinds, q), msg) == Dispatch(Project(kinds, p), msg)
  {
    var c, d, rest := Project(kinds, p), Project(kinds, q), Project(kinds, q[|p|..]);
    forall k | 0 <= k < |d| ensures d[k] == (c + rest)[k] {
      if k >= |p| {
        assert q[k] == q[|p|..][k - |p|];
      }
    }
    assert d == c + rest;
    DispatchDecided(c, rest, msg);
  }

  /** Once the walk from a handler has stopped, because a handler acted or the
      chain ended, walking further changes nothing: the outcome stays the same. */
  lemma StopsOnce(kinds: seq<Handler>, next: seq<Option<nat>>, i: nat, n: nat, m: nat, msg: LogMessage)
    requires WellFormed(kinds, next) && i < |next| && n <= m
    requires Stops(kinds, next, i, n, msg)
    ensures Stops(kinds, next, i, m, msg)
    ensures Dispatch(Steps(kinds, next, i, m), msg) == Dispatch(Steps(kinds, next, i, n), msg)
  {
    var p, q := Prefix(next, i, n), Prefix(next, i, m);
    PrefixGrows(next, i, n, m);
    if Dispatch(Project(kinds, p), msg) != Dropped {
      DecidedOnPrefix(kinds, p, q, msg);
    }
  }

  /** A handler not bound to the message's severity hands the walk on to its
      successor unchanged: one step more from it is the same as starting at the successor. */
  lemma ForwardStep(kinds: seq<Handler>, next: seq<Option<nat>>, i: nat, j: nat, n: nat, msg: LogMessage)
    requires WellFormed(kinds, next) && i < |next| && next[i] == Some(j)
    requires Bound(kinds[i]) != msg.Type()
    ensures Dispatch(Steps(kinds, next, i, n + 1), msg) == Dispatch(Steps(kinds, next, j, n), msg)
    ensures Stops(kinds, next, i, n + 1, msg) <==> Stops(kinds, next, j, n, msg)
  {
    assert Prefix(next, i, n + 1) == [i] + Prefix(next, j, n);
    assert Steps(kinds, next, i, n + 1) == [kinds[i]] + Steps(kinds, next, j, n);
    assert ([kinds[i]] + Steps(kinds, next, j, n))[1..] == Steps(kinds, next, j, n);
  }

  /** From a handler of a set closed under the successor links, the walk goes on
      for ever and meets only handlers of the set. */
  lemma {:induction false} CycleWalk(next: seq<Option<nat>>, cycle: set<nat>, x: nat, n: nat)
    requires LinksInRange(next) && x in cycle
    requires forall y :: y in cycle ==> y < |next| && next[y].Some? && next[y].value in cycle
    ensures |Prefix(next, x, n)| == n
    ensures forall k :: 0 <= k < n ==> Prefix(next, x, n)[k] in cycle
    decreases n
  {
    if n > 0 {
      var y := next[x].value;
      CycleWalk(next, cycle, y, n - 1);
      assert Prefix(next, x, n) == [x] + Prefix(next, y, n - 1);
    }
  }

  /** A set of handlers closed under the successor links, none bound to the
      message's severity, is a loop the message never leaves: from any of them
      the walk never stops. */
  lemma CycleNeverStops(kinds: seq<Handler>, next: seq<Option<nat>>, cycle: set<nat>, x: nat, n: nat, msg: LogMessage)
    requires WellFormed(kinds, next) && x in cycle
    requires forall y :: y in cycle ==> y < |next| && next[y].Some? && next[y].value in cycle && Bound(kinds[y]) != msg.Type()
    ensures !Stops(kinds, next, x, n, msg)
  {
    CycleWalk(next, cycle, x, n);
    var p := Prefix(next, x, n);
    var c := Steps(kinds, next, x, n);
    forall k | 0 <= k < |c| ensures Bound(c[k]) != msg.Type() {
      assert c[k] == kinds[p[k]];
    }
  }

  /** A walk that comes back to a handler it has passed, having met no handler
      bound to the message's severity, has entered a loop it never leaves: from
      that handler the walk never stops. */
  lemma LoopBack(kinds: seq<Handler>, next: seq<Option<nat>>, path: seq<nat>, i: nat, msg: LogMessage)
    requires WellFormed(kinds, next) && i < |next|
    requires forall k :: 0 <= k < |path| ==> path[k] < |kinds| && Bound(kinds[path[k]]) != msg.Type()
    requires forall k :: 0 <= k < |path| - 1 ==> next[path[k]] == Some(path[k + 1])
    requires path != [] ==> next[path[|path| - 1]] == Some(i)
    requires i in path
    ensures forall n: nat :: !Stops(kinds, next, i, n, msg)
  {
    var a :| 0 <= a < |path| && path[a] == i;
    var cycle := set k | a <= k < |path| :: path[k];
    forall y | y in cycle
      ensures y < |next| && next[y].Some? && next[y].value in cycle && Bound(kinds[y]) != msg.Type()
    {
      var k :| a <= k < |path| && path[k] == y;
      if k < |path| - 1 {
        assert path[k + 1] in cycle;
      } else {
        assert path[a] in cycle;
      }
    }
    forall n: nat ensures !Stops(kinds, next, i, n, msg) {
      CycleNeverStops(kinds, next, cycle, i, n, msg);
    }
  }

  /** A handler not bound to the message's severity whose successor's walk never
      stops has a walk that never stops either. */
  lemma ForwardNeverStops(kinds: seq<Handler>, next: seq<Option<nat>>, i: nat, j: nat, msg: LogMessage)
    requires WellFormed(kinds, next) && i < |next| && next[i] == Some(j)
    requires Bound(kinds[i]) != msg.Type()
    requires forall n: nat :: !Stops(kinds, next, j, n, msg)
    ensures forall n: nat :: !Stops(kinds, next, i, n, msg)
  {
    forall n: nat ensures !Stops(kinds, next, i, n, msg) {
      if n > 0 {
        ForwardStep(kinds, next, i, j, n - 1, msg);
      }
    }
  }

  /** The handler objects of a program, numbered by creation; `next[i]` is the
      successor of handler `i`, None until one is set. */
  class Handlers {
    const kinds: seq<Handler>
    var next: seq<Option<nat>>

    ghost predicate Valid()
      reads this
    {
      WellFormed(kinds, next)
    }

    /** Creates the handlers, none of them with a successor. */
    constructor (kinds: seq<Handler>)
      ensures Valid()
      ensures this.kinds == kinds
      ensures forall i :: 0 <= i < |next| ==> next[i] == None
    {
      this.kinds := kinds;
      next := seq(|kinds|, _ => None);
    }

    /** Makes handler `j` the successor of handler `i`, or, given None (a null
        pointer), leaves `i` without successor; every other link stays. */
    method SetNextHandler(i: nat, j: Option<nat>)
      requires Valid() && i < |kinds| && (j.Some? ==> j.value < |kinds|)
      modifies this
      ensures Valid()
      ensures next == old(next)[i := j]
    {
      next := next[i := j];
    }

    /** Offers `msg` to handler `i`, reached along `path` from the handler the
        message was first offered to, none of whose handlers was bound to its
        severity: consumes it when the severities match, drops it at a handler
        without successor, forwards it otherwise. When the successor is a handler
        already passed (the set `visited`), the message would go round that loop
        for ever, and the outcome is Diverges. */
    method HandleFrom(i: nat, msg: LogMessage, visited: set<nat>, ghost path: seq<nat>) returns (o: Outcome)
      requires Valid() && i < |kinds|
      requires forall k :: 0 <= k < |path| ==> path[k] < |kinds| && Bound(kinds[path[k]]) != msg.Type()
      requires forall k :: 0 <= k < |path| - 1 ==> next[path[k]] == Some(path[k + 1])
      requires path != [] ==> next[path[|path| - 1]] == Some(i)
      requires visited == set x | x in path
      ensures o == Diverges ==> forall n: nat :: !Stops(kinds, next, i, n, msg)
      ensures o != Diverges ==> exists n: nat :: Stops(kinds, next, i, n, msg) && o == Dispatch(Steps(kinds, next, i, n), msg)
      decreases Below(|kinds|) - visited
    {
      var h := kinds[i];
      if Bound(h) == msg.Type() {
        o := Consume(h, msg.Message());
        assert Steps(kinds, next, i, 1) == [h];
      } else if next[i].None? {
        o := Dropped;
        assert Prefix(next, i, 1) == [i];
        assert Steps(kinds, next, i, 1) == [h];
      } else if i in visited {
        o := Diverges;
        LoopBack(kinds, next, path, i, msg);
      } else {
        var j := next[i].value;
        assert (set x | x in path + [i]) == visited + {i};
        o := HandleFrom(j, msg, visited + {i}, path + [i]);
        if o == Diverges {
          ForwardNeverStops(kinds, next, i, j, msg);
        } else {
          var n :| Stops(kinds, next, j, n, msg) && o == Dispatch(Steps(kinds, next, j, n), msg);
          ForwardStep(kinds, next, i, j, n, msg);
        }
      }
    }

    /** Offers `msg` to handler `i`. The outcome is Diverges exactly when the walk
        along the links never meets a handler bound to the message's severity nor
        the end of the chain; otherwise it is what dispatching along the handlers
        walked gives, however far the walk is taken once it has stopped. */
    method HandleRequest(i: nat, msg: LogMessage) returns (o: Outcome)
      requires Valid() && i < |kinds|
      ensures o == Diverges <==> forall n: nat :: !Stops(kinds, next, i, n, msg)
      ensures forall n: nat :: Stops(kinds, next, i, n, msg) ==> o == Dispatch(Steps(kinds, next, i, n), msg)
    {
      o := HandleFrom(i, msg, {}, []);
      if o != Diverges {
        var m :| Stops(kinds, next, i, m, msg) && o == Dispatch(Steps(kinds, next, i, m), msg);
        forall n: nat | Stops(kinds, next, i, n, msg) ensures o == Dispatch(Steps(kinds, next, i, n), msg) {
          if n <= m {
            StopsOnce(kinds, next, i, n, m, msg);
          } else {
            StopsOnce(kinds, next, i, m, n, msg);
          }
        }
      }
    }
  }

  /** The chain the demo wires up, in link order. */
  const DemoChain: seq<Handler> := [FatalHandler, UsualHandler("DataFile.txt"), WarnHandler, UnknownHandler]

  /** The demo chain has exactly one handler for every severity, so it consumes
      every message and never drops one. */
  lemma DemoChainCoversEverySeverity(msg: LogMessage)
    ensures exists k :: 0 <= k < |DemoChain| && Bound(DemoChain[k]) == msg.Type()
              && forall j :: 0 <= j < |DemoChain| && j != k ==> Bound(DemoChain[j]) != msg.Type()
    ensures Dispatch(DemoChain, msg) != Dropped
  {
    var severities := [FatalError, Error, Warning, Unknown];
    assert forall j :: 0 <= j < |DemoChain| ==> Bound(DemoChain[j]) == severities[j];
    var k := if msg.Type() == FatalError then 0 else if msg.Type() == Error then 1
             else if msg.Type() == Warning then 2 else 3;
    assert severities[k] == msg.Type();
    assert forall j :: 0 <= j < |DemoChain| && j != k ==> severities[j] != msg.Type();
  }

  /** The demo program: four handlers created as warning, usual (writing
      "DataFile.txt"), fatal and unknown, linked fatal, usual, warning, unknown,
      and three messages offered to the fatal handler at the head. */
  method Demo() returns (first: Outcome, second: Outcome, third: Outcome)
    ensures first == Performed(Console("Just a warning\n"))
    ensures second == Performed(FileWrite("DataFile.txt", "The most common mistake."))
    ensures third == Raised("Fatal error: Everything is broken!")
  {
    var handlers := new Handlers([WarnHandler, UsualHandler("DataFile.txt"), FatalHandler, UnknownHandler]);
    handlers.SetNextHandler(2, Some(1));
    handlers.SetNextHandler(1, Some(0));
    handlers.SetNextHandler(0, Some(3));
    var warnMes := LogMessage(Warning, "Just a warning");
    var errorMes := LogMessage(Error, "The most common mistake.");
    var fatalMes := LogMessage(FatalError, "Everything is broken!");
    assert handlers.next == [Some(3), Some(0), Some(1), None];
    DemoWalk(handlers.kinds, handlers.next, warnMes);
    DemoWalk(handlers.kinds, handlers.next, errorMes);
    DemoWalk(handlers.kinds, handlers.next, fatalMes);
    DemoOutcomes();
    first := handlers.HandleRequest(2, warnMes);
    second := handlers.HandleRequest(2, errorMes);
    third := handlers.HandleRequest(2, fatalMes);
  }

  /** What the demo chain does with each of the three demo messages. */
  lemma DemoOutcomes()
    ensures Dispatch(DemoChain, LogMessage(Warning, "Just a warning")) == Performed(Console("Just a warning\n"))
    ensures Dispatch(DemoChain, LogMessage(Error, "The most common mistake.")) == Performed(FileWrite("DataFile.txt", "The most common mistake."))
    ensures Dispatch(DemoChain, LogMessage(FatalError, "Everything is broken!")) == Raised("Fatal error: Everything is broken!")
  {
    assert DemoChain[1..][1..] == [WarnHandler, UnknownHandler];
    assert "Just a warning" + "\n" == "Just a warning\n";
    assert "Fatal error: " + "Everything is broken!" == "Fatal error: Everything is broken!";
  }

  /** The demo's links, walked from the fatal handler, give the demo chain, and
      every message stops on it. */
  lemma DemoWalk(kinds: seq<Handler>, next: seq<Option<nat>>, msg: LogMessage)
    requires kinds == [WarnHandler, UsualHandler("DataFile.txt"), FatalHandler, UnknownHandler]
    requires next == [Some(3), Some(0), Some(1), None]
    ensures WellFormed(kinds, next)
    ensures Steps(kinds, next, 2, 4) == DemoChain
    ensures Stops(kinds, next, 2, 4, msg)
  {
    assert Prefix(next, 3, 1) == [3];
    assert Prefix(next, 0, 2) == [0] + [3];
    assert Prefix(next, 1, 3) == [1] + ([0] + [3]);
    assert Prefix(next, 2, 4) == [2] + ([1] + ([0] + [3]));
    DemoChainCoversEverySeverity(msg);
  }

  /** A warning handler and a usual-error handler linked to each other. A warning
      offered to the warning handler is still consumed there; a fatal error, which
      neither handler is bound to, is passed round the loop for ever. */
  method CyclicChain() returns (consumed: Outcome, looping: Outcome)
    ensures consumed == Performed(Console("Just a warning\n"))
    ensures looping == Diverges
  {
    var handlers := new Handlers([WarnHandler, UsualHandler("DataFile.txt")]);
    handlers.SetNextHandler(0, Some(1));
    handlers.SetNextHandler(1, Some(0));
    var next := handlers.next;
    assert next == [Some(1), Some(0)];
    assert Prefix(next, 0, 1) == [0];
    assert Steps(handlers.kinds, next, 0, 1) == [WarnHandler];
    assert "Just a warning" + "\n" == "Just a warning\n";
    consumed := handlers.HandleRequest(0, LogMessage(Warning, "Just a warning"));
    var fatalMes := LogMessage(FatalError, "Everything is broken!");
    forall n: nat ensures !Stops(handlers.kinds, next, 0, n, fatalMes) {
      CycleNeverStops(handlers.kinds, next, {0, 1}, 0, n, fatalMes);
    }
    looping := handlers.HandleRequest(0, fatalMes);
  }

  /** A link can be cleared again: a fatal handler linked to a warning handler
      and then unlinked with a null successor drops a warning, since it no longer
      has anyone to forward it to. */
  method ClearedLink() returns (linked: Outcome, unlinked: Outcome)
    ensures linked == Performed(Console("Just a warning\n"))
    ensures unlinked == Dropped
  {
    var handlers := new Handlers([WarnHandler, FatalHandler]);
    var warnMes := LogMessage(Warning, "Just a warning");
    handlers.SetNextHandler(1, Some(0));
    assert handlers.next == [None, Some(0)];
    assert Prefix(handlers.next, 0, 1) == [0];
    assert Prefix(handlers.next, 1, 2) == [1] + [0];
    assert Steps(handlers.kinds, handlers.next, 1, 2) == [FatalHandler, WarnHandler];
    assert "Just a warning" + "\n" == "Just a warning\n";
    assert [FatalHandler, WarnHandler][1..] == [WarnHandler];
    assert Dispatch([FatalHandler, WarnHandler], warnMes) == Performed(Console("Just a warning\n"));
    linked := handlers.HandleRequest(1, warnMes);
    assert Stops(handlers.kinds, handlers.next, 1, 2, warnMes);
    handlers.SetNextHandler(1, None);
    assert handlers.next == [None, None];
    assert Prefix(handlers.next, 1, 1) == [1];
    assert Steps(handlers.kinds, handlers.next, 1, 1) == [FatalHandler];
    unlinked := handlers.HandleRequest(1, warnMes);
  }
}
