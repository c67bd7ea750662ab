/**
 Building the archive of a run: one entry per producer and key, where no failure to create or to
 fill one entry touches any other.
 */
module ZipArchive {
  import opened Common
  import opened Strings

  // What copying a value into its entry leaves there.
  datatype Reading = NoReader | Broken(part: string) | Whole(text: string)

  // One value of a producer: whether its entry can be created, and how reading it goes.
  datatype Value = Value(creates: bool, reading: Reading)

  datatype Producer = Producer(name: string, data: map<string, Value>)

  datatype Entry = Entry(name: string, content: string)

  function NameOf(p: Producer, key: string): string {
    p.name + "/" + key
  }

  function ContentOf(r: Reading): string {
    match r
    case NoReader => ""
    case Broken(part) => part
    case Whole(text) => text
  }

  function EntriesOf(p: Producer, keys: seq<string>): seq<Entry>
    requires forall k :: k in keys ==> k in p.data
  {
    if keys == [] then []
    else
      var k := Last(keys);
      EntriesOf(p, Front(keys)) + if p.data[k].creates then [Entry(NameOf(p, k), ContentOf(p.data[k].reading))] else []
  }

  // For each producer, the order in which the range over its map visits the keys.
  ghost predicate Orders(producers: seq<Producer>, orders: seq<seq<string>>) {
    |orders| == |producers| && forall i :: 0 <= i < |producers| ==> Enumerates(orders[i], producers[i].data.Keys)
  }

  ghost function Entries(producers: seq<Producer>, orders: seq<seq<string>>): seq<Entry>
    requires Orders(producers, orders)
  {
    if producers == [] then []
    else Entries(Front(producers), Front(orders)) + EntriesOf(Last(producers), Last(orders))
  }

  method Zip(producers: seq<Producer>, orders: seq<seq<string>>) returns (z: seq<Entry>)
    requires Orders(producers, orders)
    ensures z == Entries(producers, orders)
  {
    z := [];
    for i := 0 to |producers|
      invariant z == Entries(producers[..i], orders[..i])
    {
      assert Front(producers[..i + 1]) == producers[..i] && Front(orders[..i + 1]) == orders[..i];
      ghost var before := z;
      for j := 0 to |orders[i]|
        invariant z == before + EntriesOf(producers[i], orders[i][..j])
      {
        assert Front(orders[i][..j + 1]) == orders[i][..j];
        var key := orders[i][j];
        var value := producers[i].data[key];
        if !value.creates {
          continue;
        }
        var content := "";
        match value.reading {
          case NoReader =>
          case Broken(part) => content := part;
          case Whole(text) => content := text;
        }
        z := z + [Entry(NameOf(producers[i], key), content)];
      }
      assert orders[i][..|orders[i]|] == orders[i];
    }
    assert producers[..|producers|] == producers && orders[..|orders|] == orders;
  }

  /******* Each pair gets its own entry, whatever happens to the others *******/

  // How many entries of the archive bear a name.
  function Occurrences(z: seq<Entry>, name: string): nat {
    if z == [] then 0 else Occurrences(Front(z), name) + if Last(z).name == name then 1 else 0
  }

  lemma {:induction false} OccurrencesConcat(a: seq<Entry>, b: seq<Entry>, name: string)
    ensures Occurrences(a + b, name) == Occurrences(a, name) + Occurrences(b, name)
  {
    if b == [] {
      assert a + b == a;
    } else {
      assert Front(a + b) == a + Front(b) && Last(a + b) == Last(b);
      OccurrencesConcat(a, Front(b), name);
    }
  }

  // The key's entry is made and bears the name.
  predicate Bears(p: Producer, key: string, name: string) {
    key in p.data && p.data[key].creates && NameOf(p, key) == name
  }

  lemma NameFixesKey(p: Producer, k: string, l: string)
    requires NameOf(p, k) == NameOf(p, l)
    ensures k == l
  {
    assert NameOf(p, k)[|p.name| + 1..] == k && NameOf(p, l)[|p.name| + 1..] == l;
  }

  lemma {:induction false} EntriesOfOne(p: Producer, keys: seq<string>, name: string)
    requires Distinct(keys) && forall k :: k in keys ==> k in p.data
    ensures Occurrences(EntriesOf(p, keys), name) == if exists k :: k in keys && Bears(p, k, name) then 1 else 0
  {
    if keys != [] {
      var rest, k := Front(keys), Last(keys);
      assert keys == rest + [k];
      assert k !in rest;
      EntriesOfOne(p, rest, name);
      var last := if p.data[k].creates then [Entry(NameOf(p, k), ContentOf(p.data[k].reading))] else [];
      OccurrencesConcat(EntriesOf(p, rest), last, name);
      OccurrencesShort(last, name);
      if Bears(p, k, name) {
        forall l | l in rest ensures !Bears(p, l, name) {
          if Bears(p, l, name) {
            NameFixesKey(p, k, l);
          }
        }
        assert k in keys;
      } else {
        assert forall l :: l in keys && Bears(p, l, name) ==> l in rest;
      }
    }
  }

  lemma OccurrencesShort(z: seq<Entry>, name: string)
    requires |z| <= 1
    ensures Occurrences(z, name) == if z != [] && z[0].name == name then 1 else 0
  {
  }

  ghost function Bearers(producers: seq<Producer>, name: string): nat {
    if producers == [] then 0
    else Bearers(Front(producers), name) + if exists k :: Bears(Last(producers), k, name) then 1 else 0
  }

  /** An archive name occurs once for every producer that has a key of that name and could create its entry. */
  lemma {:induction false} OccurrencesAreBearers(producers: seq<Producer>, orders: seq<seq<string>>, name: string)
    requires Orders(producers, orders)
    ensures Occurrences(Entries(producers, orders), name) == Bearers(producers, name)
  {
    if producers != [] {
      OccurrencesAreBearers(Front(producers), Front(orders), name);
      OccurrencesConcat(Entries(Front(producers), Front(orders)), EntriesOf(Last(producers), Last(orders)), name);
      EntriesOfOne(Last(producers), Last(orders), name);
    }
  }

  // Producers of the same name have no key in common.
  predicate KeysApart(producers: seq<Producer>) {
    forall i, j :: 0 <= i < j < |producers| && producers[i].name == producers[j].name ==>
      producers[i].data.Keys !! producers[j].data.Keys
  }

  predicate PlainNames(producers: seq<Producer>) {
    forall i :: 0 <= i < |producers| ==> '/' !in producers[i].name
  }

  lemma NameFixesProducer(p: Producer, k: string, q: Producer, l: string)
    requires '/' !in p.name && '/' !in q.name && NameOf(p, k) == NameOf(q, l)
    ensures p.name == q.name && k == l
  {
    CutFirst(p.name, '/', k);
    CutFirst(q.name, '/', l);
  }

  lemma {:induction false} FewBearers(producers: seq<Producer>, i: nat, key: string, name: string)
    requires PlainNames(producers) && KeysApart(producers)
    requires i < |producers| && key in producers[i].data && NameOf(producers[i], key) == name
    ensures Bearers(producers, name) == if producers[i].data[key].creates then 1 else 0
  {
    var rest, q := Front(producers), Last(producers);
    if i == |producers| - 1 {
      NoBearer(rest, q, key, name);
      if k :| Bears(q, k, name) {
        NameFixesKey(q, k, key);
      }
      assert Bears(q, key, name) <==> q.data[key].creates;
    } else {
      FewBearers(rest, i, key, name);
      if l :| Bears(q, l, name) {
        NameFixesProducer(producers[i], key, q, l);
      }
    }
  }

  lemma {:induction false} NoBearer(producers: seq<Producer>, q: Producer, key: string, name: string)
    requires PlainNames(producers) && '/' !in q.name && key in q.data && NameOf(q, key) == name
    requires forall i :: 0 <= i < |producers| && producers[i].name == q.name ==> producers[i].data.Keys !! q.data.Keys
    ensures Bearers(producers, name) == 0
  {
    if producers != [] {
      var p := Last(producers);
      NoBearer(Front(producers), q, key, name);
      if k :| Bears(p, k, name) {
        NameFixesProducer(p, k, q, key);
      }
    }
  }

  lemma {:induction false} EntryPresent(p: Producer, keys: seq<string>, key: string)
    requires key in keys && forall k :: k in keys ==> k in p.data
    requires p.data[key].creates
    ensures Entry(NameOf(p, key), ContentOf(p.data[key].reading)) in EntriesOf(p, keys)
  {
    if key != Last(keys) {
      EntryPresent(p, Front(keys), key);
    }
  }

  lemma {:induction false} ItemPresent(producers: seq<Producer>, orders: seq<seq<string>>, i: nat, key: string)
    requires Orders(producers, orders) && i < |producers| && key in producers[i].data
    requires producers[i].data[key].creates
    ensures Entry(NameOf(producers[i], key), ContentOf(producers[i].data[key].reading)) in Entries(producers, orders)
  {
    if i == |producers| - 1 {
      EntryPresent(producers[i], orders[i], key);
    } else {
      ItemPresent(Front(producers), Front(orders), i, key);
    }
  }

  /**
   Whatever else fails and whatever the orders, each producer's key has exactly one entry under its
   name, holding what could be read of its value, or none if that one entry could not be created.
   */
  lemma EachItemOnItsOwn(producers: seq<Producer>, orders: seq<seq<string>>, i: nat, key: string)
    requires Orders(producers, orders) && PlainNames(producers) && KeysApart(producers)
    requires i < |producers| && key in producers[i].data
    ensures
      var p, z := producers[i], Entries(producers, orders);
      if p.data[key].creates then
        Occurrences(z, NameOf(p, key)) == 1 && Entry(NameOf(p, key), ContentOf(p.data[key].reading)) in z
      else Occurrences(z, NameOf(p, key)) == 0
  {
    OccurrencesAreBearers(producers, orders, NameOf(producers[i], key));
    FewBearers(producers, i, key, NameOf(producers[i], key));
    if producers[i].data[key].creates {
      ItemPresent(producers, orders, i, key);
    }
  }

  lemma {:induction false} SomeBearer(producers: seq<Producer>, name: string) returns (i: nat, key: string)
    requires Bearers(producers, name) > 0
    ensures i < |producers| && Bears(producers[i], key, name)
  {
    if k :| Bears(Last(producers), k, name) {
      i, key := |producers| - 1, k;
    } else {
      i, key := SomeBearer(Front(producers), name);
    }
  }

  lemma {:induction false} BearerCounts(producers: seq<Producer>, i: nat, key: string, name: string)
    requires i < |producers| && Bears(producers[i], key, name)
    ensures Bearers(producers, name) >= 1
  {
    if i < |producers| - 1 {
      BearerCounts(Front(producers), i, key, name);
    } else {
      assert Bears(Last(producers), key, name);
    }
  }

  lemma {:induction false} TwoBearers(producers: seq<Producer>, i: nat, j: nat, key: string, name: string)
    requires i < j < |producers| && Bears(producers[i], key, name) && Bears(producers[j], key, name)
    ensures Bearers(producers, name) >= 2
  {
    if j == |producers| - 1 {
      BearerCounts(Front(producers), i, key, name);
      assert Bears(Last(producers), key, name);
    } else {
      TwoBearers(Front(producers), i, j, key, name);
    }
  }

  /**
   When every entry can be created, the names in the archive are pairwise distinct if and only if
   producers that share a name, as the two for network outbound do, share no key.
   */
  lemma DistinctExactlyIfApart(producers: seq<Producer>, orders: seq<seq<string>>)
    requires Orders(producers, orders) && PlainNames(producers)
    requires forall i, k :: 0 <= i < |producers| && k in producers[i].data ==> producers[i].data[k].creates
    ensures (forall name :: Occurrences(Entries(producers, orders), name) <= 1) <==> KeysApart(producers)
  {
    if KeysApart(producers) {
      forall name ensures Occurrences(Entries(producers, orders), name) <= 1 {
        OccurrencesAreBearers(producers, orders, name);
        if Bearers(producers, name) > 0 {
          var i, key := SomeBearer(producers, name);
          FewBearers(producers, i, key, name);
        }
      }
    } else {
      var i, j, k :| 0 <= i < j < |producers| && producers[i].name == producers[j].name &&
        k in producers[i].data.Keys && k in producers[j].data.Keys;
      var name := NameOf(producers[i], k);
      TwoBearers(producers, i, j, k, name);
      OccurrencesAreBearers(producers, orders, name);
    }
  }
}
