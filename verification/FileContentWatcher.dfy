/**
 The polling watcher. The class below updates its items in place, as the source
 does; every method is tied to a function on snapshots, and the lemmas about whole
 histories of registrations and polls are stated on those functions.
 */
module FileContentWatching {
  import opened Common

  // The identity of a channel. Content channels and error channels are numbered apart.
  type Chan = nat

  datatype Message = NewContent(text: string) | ReadError(err: string)

  // One completed channel send: the path and the position in its handler list say which
  // registration it serves, and `to` is the channel it went into.
  datatype Delivery = Delivery(path: string, slot: nat, to: Chan, msg: Message)

  // The value of one watched file's item.
  datatype Item = Item(content: string, err: Option<string>, contentHandlers: seq<Chan>, errorHandlers: seq<Chan>)

  type Items = map<string, Item>

  /******* One item *******/

  const NEW_ITEM := Item("", None, [], [])

  predicate Changes(item: Item, content: string, err: Option<string>) {
    err != None || content != item.content
  }

  function Updated(item: Item, content: string, err: Option<string>): Item {
    if Changes(item, content, err) then item.(content := content, err := err) else item
  }

  predicate Noticed(item: Item, r: Read) {
    Changes(item, Effective(r), ErrorOf(r))
  }

  function AfterRead(item: Item, r: Read): Item {
    Updated(item, Effective(r), ErrorOf(r))
  }

  /** What a change notification says, judged from the stored fields alone. */
  function Announcement(item: Item): Message {
    match item.err
    case Some(e) => ReadError(e)
    case None => NewContent(item.content)
  }

  function FanOut(path: string, handlers: seq<Chan>, msg: Message): (sent: seq<Delivery>) {
    seq(|handlers|, i requires 0 <= i < |handlers| => Delivery(path, i, handlers[i], msg))
  }

  function Listeners(item: Item, msg: Message): seq<Chan> {
    if msg.ReadError? then item.errorHandlers else item.contentHandlers
  }

  function SentFor(path: string, item: Item, r: Read): seq<Delivery> {
    if Noticed(item, r) then
      var msg := Announcement(AfterRead(item, r));
      FanOut(path, Listeners(item, msg), msg)
    else []
  }

  function Registered(items: Items, path: string, contentChan: Chan, errChan: Chan): Items {
    var item := if path in items then items[path] else NEW_ITEM;
    items[path := item.(contentHandlers := item.contentHandlers + [contentChan],
                        errorHandlers := item.errorHandlers + [errChan])]
  }

  /******* One poll of every item *******/

  function PollAll(items: Items, fs: map<string, Read>): Items
    requires items.Keys <= fs.Keys
  {
    map p | p in items :: AfterRead(items[p], fs[p])
  }

  function SentInOrder(items: Items, fs: map<string, Read>, order: seq<string>): seq<Delivery>
    requires items.Keys <= fs.Keys
    requires forall p :: p in order ==> p in items
  {
    if order == [] then []
    else
      var p := Last(order);
      SentInOrder(items, fs, Front(order)) + SentFor(p, items[p], fs[p])
  }

  function PartlyPolled(items: Items, fs: map<string, Read>, pending: set<string>): Items
    requires items.Keys <= fs.Keys
  {
    map p | p in items :: if p in pending then items[p] else AfterRead(items[p], fs[p])
  }

  // How far a poll has come: which paths it has visited, and which are still to come.
  ghost predicate Polling(before: Items, fs: map<string, Read>, visited: set<string>, pending: set<string>,
                          order: seq<string>, sent: seq<Delivery>, now: Items)
    requires before.Keys <= fs.Keys
  {
    && visited !! pending && visited + pending == before.Keys
    && Enumerates(order, visited)
    && sent == SentInOrder(before, fs, order)
    && now == PartlyPolled(before, fs, pending)
  }

  lemma PollingStep(before: Items, fs: map<string, Read>, visited: set<string>, pending: set<string>,
                    order: seq<string>, sent: seq<Delivery>, now: Items, p: string)
    requires before.Keys <= fs.Keys && p in pending
    requires Polling(before, fs, visited, pending, order, sent, now)
    ensures p in now && now[p] == before[p]
    ensures Polling(before, fs, visited + {p}, pending - {p}, order + [p], sent + SentFor(p, before[p], fs[p]),
                    now[p := AfterRead(before[p], fs[p])])
  {
    assert p !in visited && p in before;
    SentInOrderSnoc(before, fs, order, p);
    EnumeratesSnoc(order, visited, p);
    PartlyPolledStep(before, fs, pending, p);
  }

  lemma PollingStarts(before: Items, fs: map<string, Read>)
    requires before.Keys <= fs.Keys
    ensures Polling(before, fs, {}, before.Keys, [], [], before)
  {
  }

  lemma PollingEnds(before: Items, fs: map<string, Read>, visited: set<string>,
                    order: seq<string>, sent: seq<Delivery>, now: Items)
    requires before.Keys <= fs.Keys && Polling(before, fs, visited, {}, order, sent, now)
    ensures Enumerates(order, before.Keys)
    ensures sent == SentInOrder(before, fs, order)
    ensures now == PollAll(before, fs)
  {
    assert visited == before.Keys;
  }

  lemma PartlyPolledStep(items: Items, fs: map<string, Read>, pending: set<string>, p: string)
    requires items.Keys <= fs.Keys && p in items && p in pending
    ensures PartlyPolled(items, fs, pending)[p := AfterRead(items[p], fs[p])] == PartlyPolled(items, fs, pending - {p})
  {
  }

  lemma SentInOrderSnoc(items: Items, fs: map<string, Read>, order: seq<string>, p: string)
    requires items.Keys <= fs.Keys && p in items
    requires forall q :: q in order ==> q in items
    ensures SentInOrder(items, fs, order + [p]) == SentInOrder(items, fs, order) + SentFor(p, items[p], fs[p])
  {
    assert Front(order + [p]) == order;
  }

  lemma EnumeratesSnoc(order: seq<string>, keys: set<string>, p: string)
    requires Enumerates(order, keys) && p !in keys
    ensures Enumerates(order + [p], keys + {p})
  {
  }

  /******* The objects of the source *******/

  class FileContentItem {
    var content: string
    var err: Option<string>
    var contentHandlers: seq<Chan>
    var errorHandlers: seq<Chan>

    ghost function Value(): Item
      reads this
    {
      Item(content, err, contentHandlers, errorHandlers)
    }

    constructor (contentChan: Chan, errChan: Chan)
      ensures Value() == Item("", None, [contentChan], [errChan])
    {
      content, err := "", None;
      contentHandlers, errorHandlers := [contentChan], [errChan];
    }

    method UpdateIfChanged(content: string, err: Option<string>) returns (changed: bool)
      modifies this`content, this`err
      ensures changed == old(Changes(Value(), content, err))
      ensures Value() == old(Updated(Value(), content, err))
    {
      if err != None || content != this.content {
        this.content := content;
        this.err := err;
        return true;
      }
      return false;
    }

    method HandleUpdated(filePath: string) returns (sent: seq<Delivery>)
      ensures match err
              case Some(e) =>
                && |sent| == |errorHandlers|
                && forall i :: 0 <= i < |sent| ==> sent[i] == Delivery(filePath, i, errorHandlers[i], ReadError(e))
              case None =>
                && |sent| == |contentHandlers|
                && forall i :: 0 <= i < |sent| ==>
                     sent[i] == Delivery(filePath, i, contentHandlers[i], NewContent(content))
      ensures sent == FanOut(filePath, Listeners(Value(), Announcement(Value())), Announcement(Value()))
    {
      sent := [];
      if err != None {
        for i := 0 to |errorHandlers|
          invariant sent == FanOut(filePath, errorHandlers[..i], ReadError(err.value))
        {
          sent := sent + [Delivery(filePath, i, errorHandlers[i], ReadError(err.value))];
        }
        assert errorHandlers[..|errorHandlers|] == errorHandlers;
      } else {
        for i := 0 to |contentHandlers|
          invariant sent == FanOut(filePath, contentHandlers[..i], NewContent(content))
        {
          sent := sent + [Delivery(filePath, i, contentHandlers[i], NewContent(content))];
        }
        assert contentHandlers[..|contentHandlers|] == contentHandlers;
      }
    }
  }

  class FileContentWatcher {
    var items: map<string, FileContentItem>

    // No two paths share an item.
    ghost predicate Valid()
      reads this
    {
      forall p, q :: p in items && q in items && p != q ==> items[p] != items[q]
    }

    ghost function Snapshot(): Items
      reads this, items.Values
    {
      map p | p in items :: items[p].Value()
    }

    constructor ()
      ensures Valid() && Snapshot() == map[]
    {
      items := map[];
    }

    method AddHandler(filePath: string, contentChan: Chan, errChan: Chan)
      requires Valid()
      modifies this, items.Values
      ensures Valid() && fresh(items.Values - old(items.Values))
      ensures Snapshot() == Registered(old(Snapshot()), filePath, contentChan, errChan)
    {
      if filePath in items {
        var item := items[filePath];
        item.contentHandlers := item.contentHandlers + [contentChan];
        item.errorHandlers := item.errorHandlers + [errChan];
      } else {
        var item := new FileContentItem(contentChan, errChan);
        assert [] + [contentChan] == [contentChan] && [] + [errChan] == [errChan];
        items := items[filePath := item];
      }
    }

    // The body of the polling loop, for one path.
    method Visit(filePath: string, r: Read) returns (sent: seq<Delivery>)
      requires Valid() && filePath in items
      modifies items[filePath]
      ensures Snapshot() == old(Snapshot())[filePath := old(AfterRead(Snapshot()[filePath], r))]
      ensures sent == old(SentFor(filePath, Snapshot()[filePath], r))
    {
      var item := items[filePath];
      ghost var before := Snapshot();
      var changed := item.UpdateIfChanged(Effective(r), ErrorOf(r));
      assert Snapshot() == before[filePath := item.Value()];
      sent := [];
      if changed {
        sent := item.HandleUpdated(filePath);
      }
    }

    /** fs[p] is what reading p yields at the moment p's turn comes; order is the map's iteration order. */
    method CheckFilePaths(fs: map<string, Read>) returns (order: seq<string>, sent: seq<Delivery>)
      requires Valid() && items.Keys <= fs.Keys
      modifies items.Values
      ensures Valid()
      ensures Enumerates(order, old(items.Keys))
      ensures Snapshot() == PollAll(old(Snapshot()), fs)
      ensures sent == SentInOrder(old(Snapshot()), fs, order)
    {
      order, sent := [], [];
      var pending := items.Keys;
      ghost var before, visited := Snapshot(), {};
      PollingStarts(before, fs);
      while pending != {}
        invariant Polling(before, fs, visited, pending, order, sent, Snapshot())
        decreases pending
      {
        var filePath :| filePath in pending;
        PollingStep(before, fs, visited, pending, order, sent, Snapshot(), filePath);
        var out := Visit(filePath, fs[filePath]);
        order, sent, pending := order + [filePath], sent + out, pending - {filePath};
        visited := visited + {filePath};
      }
      PollingEnds(before, fs, visited, order, sent, Snapshot());
    }
  }
}
