/**
 Where messages go: each delivery of a history enters the channel that was registered for it, and what
 enters a channel is what its registration is due.
 */
module WatchDeliveries {
  import opened Common
  import opened FileContentWatching
  import opened WatchHistories

  // A delivery into the channel of its registration that is meant for its kind of message.
  ghost predicate Addressed(evs: seq<Event>, d: Delivery) {
    && d.slot < |PairsOf(evs, d.path)|
    && d.to == match d.msg
               case NewContent(_) => PairsOf(evs, d.path)[d.slot].0
               case ReadError(_) => PairsOf(evs, d.path)[d.slot].1
  }

  ghost predicate AllAddressed(evs: seq<Event>, sent: seq<Delivery>) {
    forall i :: 0 <= i < |sent| ==> Addressed(evs, sent[i])
  }

  lemma AddressedLater(evs: seq<Event>, sent: seq<Delivery>)
    requires evs != [] && AllAddressed(Front(evs), sent)
    ensures AllAddressed(evs, sent)
  {
    forall i | 0 <= i < |sent| ensures Addressed(evs, sent[i]) {
      var p := sent[i].path;
      assert PairsOf(Front(evs), p) <= PairsOf(evs, p);
    }
  }

  lemma SentForAddressed(evs: seq<Event>, p: string, r: Read)
    requires LegalHistory(evs) && p in ItemsAfter(evs)
    ensures AllAddressed(evs, SentFor(p, ItemsAfter(evs)[p], r))
  {
    ItemIsHistory(evs, p);
    SentForMatching(p, ItemsAfter(evs)[p], ReadsOf(evs, p), PairsOf(evs, p), r);
  }

  lemma {:induction false} PollIsAddressed(evs: seq<Event>, fs: map<string, Read>, order: seq<string>)
    requires LegalHistory(evs) && ItemsAfter(evs).Keys <= fs.Keys
    requires forall p :: p in order ==> p in ItemsAfter(evs)
    ensures AllAddressed(evs, SentInOrder(ItemsAfter(evs), fs, order))
  {
    if order != [] {
      PollIsAddressed(evs, fs, Front(order));
      SentForAddressed(evs, Last(order), fs[Last(order)]);
    }
  }

  /** In every history every message enters the channel that its registration named for its kind. */
  lemma {:induction false} EverythingIsAddressed(evs: seq<Event>)
    requires LegalHistory(evs)
    ensures AllAddressed(evs, Sent(evs))
  {
    if evs != [] {
      EverythingIsAddressed(Front(evs));
      AddressedLater(evs, Sent(Front(evs)));
      match Last(evs)
      case Register(_, _, _) =>
      case Poll(fs, order) =>
        PollIsAddressed(Front(evs), fs, order);
        AddressedLater(evs, SentInOrder(ItemsAfter(Front(evs)), fs, order));
    }
  }

  /**
   What one poll sends for a path, said outright. A failed read sends its error into every registered
   error channel. A content is sent into every registered content channel if it differs from what the
   read before held, a failed one counting as empty, and otherwise nothing is sent.
   */
  lemma PollSends(evs: seq<Event>, fs: map<string, Read>, order: seq<string>, p: string)
    requires LegalHistory(evs) && Legal(ItemsAfter(evs), Poll(fs, order)) && PairsOf(evs, p) != []
    ensures p in fs
    ensures
      var sent := OnPath(SentInOrder(ItemsAfter(evs), fs, order), p);
      var pairs, rs := PairsOf(evs, p), ReadsOf(evs, p);
      match fs[p]
      case Failed(err) =>
        && |sent| == |pairs|
        && forall i :: 0 <= i < |pairs| ==> sent[i] == Delivery(p, i, pairs[i].1, ReadError(err))
      case Content(text) =>
        if rs != [] && Last(rs) == Content(text) then sent == []
        else if text == "" && (rs == [] || Last(rs).Failed?) then sent == []
        else
          && |sent| == |pairs|
          && forall i :: 0 <= i < |pairs| ==> sent[i] == Delivery(p, i, pairs[i].0, NewContent(text))
  {
    PollDelivers(evs, fs, order, p);
    ItemIsHistory(evs, p);
  }

  /******* What enters a channel *******/

  function ContentsInto(sent: seq<Delivery>, c: Chan): seq<string> {
    if sent == [] then []
    else
      ContentsInto(Front(sent), c) +
      if Last(sent).msg.NewContent? && Last(sent).to == c then [Last(sent).msg.text] else []
  }

  function ErrorsInto(sent: seq<Delivery>, c: Chan): seq<string> {
    if sent == [] then []
    else
      ErrorsInto(Front(sent), c) +
      if Last(sent).msg.ReadError? && Last(sent).to == c then [Last(sent).msg.err] else []
  }

  function ContentsOf(msgs: seq<Message>): seq<string> {
    if msgs == [] then []
    else ContentsOf(Front(msgs)) + if Last(msgs).NewContent? then [Last(msgs).text] else []
  }

  function ErrorsOf(msgs: seq<Message>): seq<string> {
    if msgs == [] then []
    else ErrorsOf(Front(msgs)) + if Last(msgs).ReadError? then [Last(msgs).err] else []
  }

  // No other registration names the same channel for contents, or for errors.
  ghost predicate SoleContentChannel(evs: seq<Event>, p: string, slot: nat)
    requires slot < |PairsOf(evs, p)|
  {
    forall q, k: nat :: k < |PairsOf(evs, q)| && PairsOf(evs, q)[k].0 == PairsOf(evs, p)[slot].0 ==> q == p && k == slot
  }

  ghost predicate SoleErrorChannel(evs: seq<Event>, p: string, slot: nat)
    requires slot < |PairsOf(evs, p)|
  {
    forall q, k: nat :: k < |PairsOf(evs, q)| && PairsOf(evs, q)[k].1 == PairsOf(evs, p)[slot].1 ==> q == p && k == slot
  }

  lemma ContentsSnoc(msgs: seq<Message>, m: Message)
    ensures ContentsOf(msgs + [m]) == ContentsOf(msgs) + if m.NewContent? then [m.text] else []
    ensures ErrorsOf(msgs + [m]) == ErrorsOf(msgs) + if m.ReadError? then [m.err] else []
  {
    assert Front(msgs + [m]) == msgs;
  }

  lemma {:induction false} ContentsIntoSole(evs: seq<Event>, sent: seq<Delivery>, p: string, slot: nat)
    requires AllAddressed(evs, sent) && slot < |PairsOf(evs, p)| && SoleContentChannel(evs, p, slot)
    ensures ContentsInto(sent, PairsOf(evs, p)[slot].0) == ContentsOf(Stream(sent, p, slot))
  {
    if sent != [] {
      var d := Last(sent);
      assert Addressed(evs, d);
      ContentsIntoSole(evs, Front(sent), p, slot);
      ContentsSnoc(Stream(Front(sent), p, slot), d.msg);
      assert Stream(Front(sent), p, slot) + [] == Stream(Front(sent), p, slot);
    }
  }

  lemma {:induction false} ErrorsIntoSole(evs: seq<Event>, sent: seq<Delivery>, p: string, slot: nat)
    requires AllAddressed(evs, sent) && slot < |PairsOf(evs, p)| && SoleErrorChannel(evs, p, slot)
    ensures ErrorsInto(sent, PairsOf(evs, p)[slot].1) == ErrorsOf(Stream(sent, p, slot))
  {
    if sent != [] {
      var d := Last(sent);
      assert Addressed(evs, d);
      ErrorsIntoSole(evs, Front(sent), p, slot);
      ContentsSnoc(Stream(Front(sent), p, slot), d.msg);
      assert Stream(Front(sent), p, slot) + [] == Stream(Front(sent), p, slot);
    }
  }

  /**
   A content channel registered once receives, over the whole history, exactly the contents announced
   for its path from its registration on, in order.
   */
  lemma ContentChannelReceives(evs: seq<Event>, p: string, slot: nat)
    requires LegalHistory(evs) && slot < |PairsOf(evs, p)| && SoleContentChannel(evs, p, slot)
    ensures Missed(evs, p, slot) <= |Messages(ReadsOf(evs, p))|
    ensures ContentsInto(Sent(evs), PairsOf(evs, p)[slot].0) ==
            ContentsOf(Messages(ReadsOf(evs, p))[Missed(evs, p, slot)..])
  {
    EverythingIsAddressed(evs);
    EveryHandlerGetsTheSameSequence(evs, p, slot);
    ContentsIntoSole(evs, Sent(evs), p, slot);
  }

  /** And an error channel registered once exactly the errors. */
  lemma ErrorChannelReceives(evs: seq<Event>, p: string, slot: nat)
    requires LegalHistory(evs) && slot < |PairsOf(evs, p)| && SoleErrorChannel(evs, p, slot)
    ensures Missed(evs, p, slot) <= |Messages(ReadsOf(evs, p))|
    ensures ErrorsInto(Sent(evs), PairsOf(evs, p)[slot].1) ==
            ErrorsOf(Messages(ReadsOf(evs, p))[Missed(evs, p, slot)..])
  {
    EverythingIsAddressed(evs);
    EveryHandlerGetsTheSameSequence(evs, p, slot);
    ErrorsIntoSole(evs, Sent(evs), p, slot);
  }

  // The errors of the failed reads, in order.
  function FailuresAmong(rs: seq<Read>): seq<string> {
    if rs == [] then []
    else
      FailuresAmong(Front(rs)) +
      match Last(rs)
      case Failed(err) => [err]
      case Content(_) => []
  }

  /** Every failing read is announced, also after another one with the same error. */
  lemma {:induction false} EveryFailureIsAnnounced(rs: seq<Read>)
    ensures ErrorsOf(Messages(rs)) == FailuresAmong(rs)
  {
    if rs != [] {
      var rest := Front(rs);
      EveryFailureIsAnnounced(rest);
      ContentsSnoc(Messages(rest), MessageOf(Last(rs)));
      assert Messages(rest) + [] == Messages(rest);
    }
  }
}
