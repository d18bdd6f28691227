/** The outside world as the demos see it: standard output and files that are
    opened in truncate mode and written once. Writes become values of type
    Effect; a World records what standard output and each file hold. */
module Io {

  /** One observable write: text sent to standard output, or a file at `path`
      opened for writing (which discards its previous content) that receives `text`. */
  datatype Effect = Console(text: string) | FileWrite(path: string, text: string)

  /** Everything written to standard output so far, and the content of each file. */
  datatype World = World(stdout: string, files: map<string, string>)

  /** Carries out one write. */
  function Perform(w: World, e: Effect): World
  {
    match e
    case Console(t) => w.(stdout := w.stdout + t)
    case FileWrite(p, t) => w.(files := w.files[p := t])
  }

  /** Carries out a sequence of writes in order. */
  function Run(w: World, es: seq<Effect>): World
    decreases |es|
  {
    if es == [] then w else Run(Perform(w, es[0]), es[1..])
  }

  /** What a sequence of writes sends to standard output: the texts of its
      console writes, concatenated in order. */
  function ConsoleText(es: seq<Effect>): string
    decreases |es|
  {
    if es == [] then ""
    else (if es[0].Console? then es[0].text else "") + ConsoleText(es[1..])
  }

  /** Truncate-mode semantics of a file write: afterwards the file holds exactly
      the text written, whatever it held before; no other file is created, and
      standard output and every other file are untouched. A console write
      appends to standard output and leaves every file as it was. */
  lemma WriteSemantics(w: World, e: Effect)
    ensures e.FileWrite? ==> e.path in Perform(w, e).files && Perform(w, e).files[e.path] == e.text
    ensures e.FileWrite? ==> Perform(w, e).stdout == w.stdout
    ensures e.FileWrite? ==> Perform(w, e).files.Keys == w.files.Keys + {e.path}
    ensures e.FileWrite? ==> forall p :: p in w.files && p != e.path ==> p in Perform(w, e).files && Perform(w, e).files[p] == w.files[p]
    ensures e.Console? ==> Perform(w, e).stdout == w.stdout + e.text && Perform(w, e).files == w.files
  {
  }

  /** Running two traces one after the other is running their concatenation. */
  lemma {:induction false} RunAppend(w: World, a: seq<Effect>, b: seq<Effect>)
    ensures Run(w, a + b) == Run(Run(w, a), b)
    decreases |a|
  {
    if a == [] {
      assert a + b == b;
    } else {
      assert (a + b)[0] == a[0];
      assert (a + b)[1..] == a[1..] + b;
      RunAppend(Perform(w, a[0]), a[1..], b);
    }
  }

  /** Standard output only grows: a trace appends exactly its console texts. */
  lemma {:induction false} RunConsole(w: World, es: seq<Effect>)
    ensures Run(w, es).stdout == w.stdout + ConsoleText(es)
    decreases |es|
  {
    if es != [] {
      RunConsole(Perform(w, es[0]), es[1..]);
    }
  }

  /** A file holds what the last write to it put there: whatever came before,
      a trace that ends with a write of `text` to `path` leaves exactly `text` in it. */
  lemma LastWriteWins(w: World, es: seq<Effect>, path: string, text: string)
    ensures path in Run(w, es + [FileWrite(path, text)]).files
    ensures Run(w, es + [FileWrite(path, text)]).files[path] == text
  {
    RunAppend(w, es, [FileWrite(path, text)]);
  }
}
