/** What reading a file yields, and the few notions on sequences that all modules share. */
module Common {
  datatype Option<+T> = None | Some(value: T)

  // What one read of a watched file yields: its whole text, or an error.
  datatype Read = Content(text: string) | Failed(err: string)

  function Front<T>(s: seq<T>): seq<T>
    requires s != []
  {
    s[..|s| - 1]
  }

  function Last<T>(s: seq<T>): T
    requires s != []
  {
    s[|s| - 1]
  }

  ghost predicate Distinct<T>(s: seq<T>) {
    forall i, j :: 0 <= i < j < |s| ==> s[i] != s[j]
  }

  // A visit of every key exactly once: the order a map range may choose.
  ghost predicate Enumerates(order: seq<string>, keys: set<string>) {
    && (forall p :: p in order <==> p in keys)
    && Distinct(order)
  }

  /** A failed read hands back the empty string beside its error. */
  function Effective(r: Read): string {
    match r
    case Content(text) => text
    case Failed(_) => ""
  }

  function ErrorOf(r: Read): Option<string> {
    match r
    case Content(_) => None
    case Failed(err) => Some(err)
  }
}
