/**
 From the interleaved workers of a run to its archive: what the concurrent execution leaves in the
 producers is what the archive holds, whatever fails while it is written.
 */
module RunArchive {
  import opened Common
  import F = ForkJoin
  import R = RunOutcome
  import Z = ZipArchive

  // How writing a value into the archive goes: it may not be created, not be readable, or break off.
  datatype Handling = NotCreated | Unreadable | BrokenOff(part: string) | Written

  // What happens to each producer's key.
  type Faults = (nat, string) -> Handling

  function Handled(h: Handling, text: string): Z.Value {
    match h
    case NotCreated => Z.Value(false, Z.NoReader)
    case Unreadable => Z.Value(true, Z.NoReader)
    case BrokenOff(part) => Z.Value(true, Z.Broken(part))
    case Written => Z.Value(true, Z.Whole(text))
  }

  function WorkerName(p: F.Program, w: nat): string
    requires w < p.Size()
  {
    if w < |p.collectors| then p.collectors[w].name else p.diagnosers[w - |p.collectors|].name
  }

  function ProducerOf(p: F.Program, w: nat, data: F.Data, faults: Faults): Z.Producer
    requires w < p.Size()
  {
    Z.Producer(WorkerName(p, w), map k | k in data :: Handled(faults(w, k), data[k]))
  }

  /** The producers a state hands to Zip: its producer list, with the data of each. */
  function Producers(p: F.Program, s: F.State, faults: Faults): seq<Z.Producer> {
    seq(|s.producers|, i requires 0 <= i < |s.producers| =>
      var w := s.producers[i];
      if w < p.Size() && w < |s.workers| then ProducerOf(p, w, s.workers[w].data, faults)
      else Z.Producer("", map[]))
  }

  // A collector that is supported, or a diagnoser.
  predicate ToRun(p: F.Program, w: nat) {
    w < |p.collectors| + |p.diagnosers| && (w < |p.collectors| ==> p.collectors[w].supported)
  }

  lemma PlaceOf(p: F.Program, evs: seq<F.Event>, faults: Faults, w: nat) returns (i: nat)
    requires R.Completed(p, evs) && ToRun(p, w)
    ensures
      var s := F.Exec(p, evs).value;
      && w < |s.workers| && i < |Producers(p, s, faults)|
      && Producers(p, s, faults)[i] == ProducerOf(p, w, s.workers[w].data, faults)
  {
    R.ProducersAndArchive(p, evs);
    var s := F.Exec(p, evs).value;
    assert w in s.producers;
    i :| 0 <= i < |s.producers| && s.producers[i] == w;
  }

  // The archive has one entry for a text, as it could be written, or none if it could not be created.
  ghost predicate ArchivedOnce(z: seq<Z.Entry>, name: string, text: string, h: Handling) {
    match h
    case NotCreated => Z.Occurrences(z, name) == 0
    case Written => Z.Occurrences(z, name) == 1 && Z.Entry(name, text) in z
    case BrokenOff(part) => Z.Occurrences(z, name) == 1 && Z.Entry(name, part) in z
    case Unreadable => Z.Occurrences(z, name) == 1 && Z.Entry(name, "") in z
  }

  /**
   Whatever the interleaving of the workers, whatever fails in the archive and in whatever order maps
   are ranged over: for every supported collector and every diagnoser, each key of the data it ends
   with occurs exactly once in the archive under its name, with the whole text if it could be
   written; and not at all only if that very entry could not be created.
   */
  lemma EveryKeyIsArchivedOnce(p: F.Program, evs: seq<F.Event>, faults: Faults, orders: seq<seq<string>>,
                               w: nat, key: string)
    requires R.Completed(p, evs) && ToRun(p, w)
    requires var producers := Producers(p, F.Exec(p, evs).value, faults);
             Z.Orders(producers, orders) && Z.PlainNames(producers) && Z.KeysApart(producers)
    requires var s := F.Exec(p, evs).value; w < |s.workers| && key in s.workers[w].data
    ensures
      var s := F.Exec(p, evs).value;
      ArchivedOnce(Z.Entries(Producers(p, s, faults), orders), WorkerName(p, w) + "/" + key,
                   s.workers[w].data[key], faults(w, key))
  {
    var i := PlaceOf(p, evs, faults, w);
    Z.EachItemOnItsOwn(Producers(p, F.Exec(p, evs).value, faults), orders, i, key);
  }

  /** In particular, what a supported collector wrote last for a key is what the archive holds for it. */
  lemma WhatWasCollectedIsArchived(p: F.Program, evs: seq<F.Event>, faults: Faults, orders: seq<seq<string>>,
                                   c: nat, key: string, text: string)
    requires R.Completed(p, evs) && c < |p.collectors| && p.collectors[c].supported
    requires var producers := Producers(p, F.Exec(p, evs).value, faults);
             Z.Orders(producers, orders) && Z.PlainNames(producers) && Z.KeysApart(producers)
    requires R.LastValue(p.collectors[c].writes, key) == Some(text)
    ensures ArchivedOnce(Z.Entries(Producers(p, F.Exec(p, evs).value, faults), orders),
                         p.collectors[c].name + "/" + key, text, faults(c, key))
  {
    R.CollectorOutcome(p, evs, c);
    assert R.Lookup(F.Exec(p, evs).value.workers[c].data, key) == Some(text);
    EveryKeyIsArchivedOnce(p, evs, faults, orders, c, key);
  }

  // Workers of one name that run have no key in common in the data they end with.
  predicate DataApart(p: F.Program, s: F.State) {
    forall v, w :: 0 <= v < w < |s.workers| && ToRun(p, v) && ToRun(p, w) && WorkerName(p, v) == WorkerName(p, w) ==>
      s.workers[v].data.Keys !! s.workers[w].data.Keys
  }

  predicate PlainWorkerNames(p: F.Program) {
    forall w :: 0 <= w < p.Size() ==> '/' !in WorkerName(p, w)
  }

  /** The conditions on names and keys can be read off the workers themselves. */
  lemma ApartIfWorkersAre(p: F.Program, evs: seq<F.Event>, faults: Faults)
    requires R.Completed(p, evs) && DataApart(p, F.Exec(p, evs).value) && PlainWorkerNames(p)
    ensures
      var producers := Producers(p, F.Exec(p, evs).value, faults);
      Z.PlainNames(producers) && Z.KeysApart(producers)
  {
    R.ProducersAndArchive(p, evs);
    var s := F.Exec(p, evs).value;
    var list, producers := s.producers, Producers(p, s, faults);
    forall i | 0 <= i < |producers|
      ensures ToRun(p, list[i]) && producers[i] == ProducerOf(p, list[i], s.workers[list[i]].data, faults)
    {
      assert list[i] in list;
    }
    forall i, j | 0 <= i < j < |producers| && producers[i].name == producers[j].name
      ensures producers[i].data.Keys !! producers[j].data.Keys
    {
      assert list[i] < list[j];
      assert producers[i].data.Keys == s.workers[list[i]].data.Keys;
      assert producers[j].data.Keys == s.workers[list[j]].data.Keys;
    }
  }
}
