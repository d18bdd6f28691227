/** The observer demo: a publisher keeps an ordered list of observers and, for
    each kind of event, calls the matching callback on every observer in the list.
    Each observer kind answers one event and ignores the other two. */
module Observers {
  import opened Io

  /** The three callbacks an observer offers. */
  datatype Event = OnWarning | OnError | OnFatalError

  /** The three observer kinds; file and fatal observers carry the path of the file they write. */
  datatype Kind = ConsoleObserver | FileObserver(path: string) | FatalObserver(path: string)

  /** An observer object. The registry refers to observers by identity, as the
      source refers to them by pointer: two observers of the same kind are still
      two different entries. */
  class Observer {
    const kind: Kind

    constructor (kind: Kind)
      ensures this.kind == kind
    {
      this.kind := kind;
    }
  }

  /** The one event an observer kind overrides. */
  function Subscription(k: Kind): Event
  {
    match k
    case ConsoleObserver => OnWarning
    case FileObserver(_) => OnError
    case FatalObserver(_) => OnFatalError
  }

  /** What the callback for `ev` does on an observer of kind `k`: a console
      observer writes a warning to standard output as it is, a file observer
      overwrites its file with an error, a fatal observer writes a fatal error to
      standard output and then overwrites its file with it; every callback an
      observer does not override does nothing. */
  function Reaction(k: Kind, ev: Event, message: string): seq<Effect>
  {
    match k
    case ConsoleObserver =>
      if ev == OnWarning then [Console(message)] else []
    case FileObserver(path) =>
      if ev == OnError then [FileWrite(path, message)] else []
    case FatalObserver(path) =>
      if ev == OnFatalError then [Console(message), FileWrite(path, message)] else []
  }

  /** An observer reacts to its own event and to no other, and whatever it writes
      is the message exactly, with nothing added. */
  lemma ReactionSelective(k: Kind, ev: Event, message: string)
    ensures Reaction(k, ev, message) != [] <==> ev == Subscription(k)
    ensures forall e :: e in Reaction(k, ev, message) ==> e.text == message
    ensures forall e :: e in Reaction(k, ev, message) && e.FileWrite? ==> k != ConsoleObserver && e.path == k.path
  {
  }

  /** A console observer's warning callback appends the message to standard
      output and leaves every file alone. */
  lemma ConsoleObserverRun(w: World, message: string)
    ensures Run(w, Reaction(ConsoleObserver, OnWarning, message)) == World(w.stdout + message, w.files)
  {
    assert Reaction(ConsoleObserver, OnWarning, message)[1..] == [];
  }

  /** A file observer's error callback leaves its file holding exactly the
      message, whatever it held before, and standard output as it was. */
  lemma FileObserverRun(w: World, path: string, message: string)
    ensures Run(w, Reaction(FileObserver(path), OnError, message)) == World(w.stdout, w.files[path := message])
  {
    LastWriteWins(w, [], path, message);
    assert [] + [FileWrite(path, message)] == Reaction(FileObserver(path), OnError, message);
    assert Reaction(FileObserver(path), OnError, message)[1..] == [];
  }

  /** A fatal observer's fatal-error callback first appends the message to
      standard output and then overwrites its file with it. */
  lemma FatalObserverRun(w: World, path: string, message: string)
    ensures Run(w, Reaction(FatalObserver(path), OnFatalError, message)) == World(w.stdout + message, w.files[path := message])
  {
    var es := Reaction(FatalObserver(path), OnFatalError, message);
    assert es == [Console(message)] + [FileWrite(path, message)];
    RunAppend(w, [Console(message)], [FileWrite(path, message)]);
    assert [Console(message)][1..] == [];
    assert [FileWrite(path, message)][1..] == [];
  }

  /** One callback invocation during a publication: the observer it was invoked
      on and the writes it made. */
  datatype Call = Call(target: Observer, effects: seq<Effect>)

  /** The callbacks a publication of `ev` invokes over the list `s`: one call per
      entry, in list order, each doing what that entry's kind does for `ev`. */
  function Broadcast(s: seq<Observer>, ev: Event, message: string): (calls: seq<Call>)
    ensures |calls| == |s|
    ensures forall k :: 0 <= k < |s| ==> calls[k] == Call(s[k], Reaction(s[k].kind, ev, message))
    decreases |s|
  {
    if s == [] then []
    else [Call(s[0], Reaction(s[0].kind, ev, message))] + Broadcast(s[1..], ev, message)
  }

  /** Registering one more observer adds one call at the end of a publication. */
  lemma BroadcastSnoc(s: seq<Observer>, o: Observer, ev: Event, message: string)
    ensures Broadcast(s + [o], ev, message) == Broadcast(s, ev, message) + [Call(o, Reaction(o.kind, ev, message))]
  {
  }

  /** The observers called, in order. */
  function Targets(calls: seq<Call>): (r: seq<Observer>)
    ensures |r| == |calls| && forall k :: 0 <= k < |calls| ==> r[k] == calls[k].target
  {
    seq(|calls|, k requires 0 <= k < |calls| => calls[k].target)
  }

  /** All writes of a sequence of calls, in the order they happen. */
  function Effects(calls: seq<Call>): seq<Effect>
    decreases |calls|
  {
    if calls == [] then [] else calls[0].effects + Effects(calls[1..])
  }

  /** A publication calls exactly the registered observers, in registration order:
      each entry once, so an observer registered twice is called twice. */
  lemma BroadcastTargets(s: seq<Observer>, ev: Event, message: string)
    ensures Targets(Broadcast(s, ev, message)) == s
    ensures forall o :: multiset(Targets(Broadcast(s, ev, message)))[o] == multiset(s)[o]
  {
  }

  /** The list `s` with every entry identical to `o` removed, the others kept in order. */
  function Without(s: seq<Observer>, o: Observer): (r: seq<Observer>)
    ensures o !in r
    ensures multiset(r) == multiset(s)[o := 0]
    ensures |r| == |s| - multiset(s)[o]
    decreases |s|
  {
    if s == [] then []
    else
      assert s == [s[0]] + s[1..];
      if s[0] == o then Without(s[1..], o)
      else [s[0]] + Without(s[1..], o)
  }

  /** Removal keeps the relative order of what stays: removing from a
      concatenation removes from each part. */
  lemma {:induction false} WithoutAppend(a: seq<Observer>, b: seq<Observer>, o: Observer)
    ensures Without(a + b, o) == Without(a, o) + Without(b, o)
    decreases |a|
  {
    if a == [] {
      assert a + b == b;
    } else {
      assert (a + b)[0] == a[0];
      assert (a + b)[1..] == a[1..] + b;
      WithoutAppend(a[1..], b, o);
    }
  }

  /** Removing an observer that is not registered changes nothing. */
  lemma {:induction false} WithoutAbsent(s: seq<Observer>, o: Observer)
    requires o !in s
    ensures Without(s, o) == s
    decreases |s|
  {
    if s != [] {
      assert o !in s[1..];
      WithoutAbsent(s[1..], o);
    }
  }

  /** Removing the same observer twice is removing it once. */
  lemma WithoutIdempotent(s: seq<Observer>, o: Observer)
    ensures Without(Without(s, o), o) == Without(s, o)
  {
    WithoutAbsent(Without(s, o), o);
  }

  /** Removing an observer also undoes its latest registration. */
  lemma AddThenRemove(s: seq<Observer>, o: Observer)
    ensures Without(s + [o], o) == Without(s, o)
  {
    WithoutAppend(s, [o], o);
    assert Without([o], o) == [];
  }

  /** After an observer is removed, no publication calls it, so none of its
      callbacks writes anything; every other entry is still called. */
  lemma RemovedIsSilent(s: seq<Observer>, o: Observer, ev: Event, message: string)
    ensures forall c :: c in Broadcast(Without(s, o), ev, message) ==> c.target != o
    ensures forall x :: x != o ==> multiset(Targets(Broadcast(Without(s, o), ev, message)))[x] == multiset(s)[x]
  {
    BroadcastTargets(Without(s, o), ev, message);
    forall c | c in Broadcast(Without(s, o), ev, message) ensures c.target != o {
      var k :| 0 <= k < |Broadcast(Without(s, o), ev, message)| && Broadcast(Without(s, o), ev, message)[k] == c;
      assert c.target == Without(s, o)[k];
    }
  }

  /** The publisher: the observers registered with it, in registration order. */
  class DataForObserving {
    var observers: seq<Observer>

    constructor ()
      ensures observers == []
    {
      observers := [];
    }

    /** Registers `obs` at the end of the list; every earlier entry keeps its place. */
    method AddObserver(obs: Observer)
      modifies this
      ensures observers == old(observers) + [obs]
      ensures |observers| == |old(observers)| + 1
      ensures forall k :: 0 <= k < |old(observers)| ==> observers[k] == old(observers)[k]
    {
      observers := observers + [obs];
    }

    /** Removes every entry identical to `obs`; the others keep their relative order. */
    method RemoveObserver(obs: Observer)
      modifies this
      ensures observers == Without(old(observers), obs)
      ensures obs !in observers
      ensures |observers| == |old(observers)| - multiset(old(observers))[obs]
    {
      observers := Without(observers, obs);
    }

    /** Calls the callback for `ev` on every registered observer, in registration
        order, and returns the calls made; the list itself is left as it is. */
    method Publish(ev: Event, message: string) returns (calls: seq<Call>)
      ensures calls == Broadcast(observers, ev, message)
    {
      calls := [];
      for i := 0 to |observers|
        invariant calls == Broadcast(observers[..i], ev, message)
      {
        var obs := observers[i];
        BroadcastSnoc(observers[..i], obs, ev, message);
        calls := calls + [Call(obs, Reaction(obs.kind, ev, message))];
        assert observers[..i + 1] == observers[..i] + [obs];
      }
      assert observers[..|observers|] == observers;
    }

    /** Publishes a warning to every registered observer. */
    method Warning(message: string) returns (calls: seq<Call>)
      ensures calls == Broadcast(observers, OnWarning, message)
    {
      calls := Publish(OnWarning, message);
    }

    /** Publishes an error to every registered observer. */
    method Error(message: string) returns (calls: seq<Call>)
      ensures calls == Broadcast(observers, OnError, message)
    {
      calls := Publish(OnError, message);
    }

    /** Publishes a fatal error to every registered observer. */
    method FatalError(message: string) returns (calls: seq<Call>)
      ensures calls == Broadcast(observers, OnFatalError, message)
    {
      calls := Publish(OnFatalError, message);
    }
  }

  /** The demo program: a console observer, a file observer and a fatal observer
      (both writing "DataFile.txt") are registered, and a warning is published.
      All three are called and only the console observer writes anything. */
  method Demo() returns (calls: seq<Call>)
    ensures |calls| == 3
    ensures calls[0].target.kind == ConsoleObserver && calls[1].target.kind == FileObserver("DataFile.txt")
              && calls[2].target.kind == FatalObserver("DataFile.txt")
    ensures calls[0].target != calls[1].target && calls[1].target != calls[2].target && calls[0].target != calls[2].target
    ensures Effects(calls) == [Console("My Warning!")]
    ensures forall w :: Run(w, Effects(calls)) == World(w.stdout + "My Warning!", w.files)
  {
    var consoleObserver := new Observer(ConsoleObserver);
    var fileObserver := new Observer(FileObserver("DataFile.txt"));
    var fatalObserver := new Observer(FatalObserver("DataFile.txt"));
    var dataForObserving := new DataForObserving();
    dataForObserving.AddObserver(consoleObserver);
    dataForObserving.AddObserver(fileObserver);
    dataForObserving.AddObserver(fatalObserver);
    calls := dataForObserving.Warning("My Warning!");
    assert calls == [Call(consoleObserver, [Console("My Warning!")]), Call(fileObserver, []), Call(fatalObserver, [])];
    assert Effects(calls[2..]) == [];
    assert Effects(calls[1..]) == [];
    forall w ensures Run(w, Effects(calls)) == World(w.stdout + "My Warning!", w.files) {
      RunConsole(w, Effects(calls));
      assert ConsoleText(Effects(calls)) == "My Warning!";
    }
  }
}
