/**
 Whole histories of a watcher: any list of registrations and polls, with any result of
 every read and any iteration order in every poll.
 */
module WatchHistories {
  import opened Common
  import opened FileContentWatching

  datatype Event =
    | Register(path: string, contentChan: Chan, errChan: Chan)
    | Poll(fs: map<string, Read>, order: seq<string>)

  ghost predicate Legal(items: Items, e: Event) {
    e.Poll? ==> items.Keys <= e.fs.Keys && Enumerates(e.order, items.Keys)
  }

  ghost predicate LegalHistory(evs: seq<Event>)
    decreases |evs|, 0
  {
    evs != [] ==> LegalHistory(Front(evs)) && Legal(ItemsAfter(Front(evs)), Last(evs))
  }

  ghost function ItemsAfter(evs: seq<Event>): Items
    requires LegalHistory(evs)
    decreases |evs|, 1
  {
    if evs == [] then map[]
    else
      match Last(evs)
      case Register(p, c, e) => Registered(ItemsAfter(Front(evs)), p, c, e)
      case Poll(fs, _) => PollAll(ItemsAfter(Front(evs)), fs)
  }

  /** Everything sent over the history, in order. */
  ghost function Sent(evs: seq<Event>): seq<Delivery>
    requires LegalHistory(evs)
  {
    if evs == [] then []
    else
      match Last(evs)
      case Register(_, _, _) => Sent(Front(evs))
      case Poll(fs, order) => Sent(Front(evs)) + SentInOrder(ItemsAfter(Front(evs)), fs, order)
  }

  /** The reads made of one path, from its first registration on. */
  ghost function ReadsOf(evs: seq<Event>, p: string): seq<Read>
    requires LegalHistory(evs)
  {
    if evs == [] then []
    else
      ReadsOf(Front(evs), p) +
      if Last(evs).Poll? && p in ItemsAfter(Front(evs)) then [Last(evs).fs[p]] else []
  }

  /** The channel pairs registered for one path, in order. */
  function PairsOf(evs: seq<Event>, p: string): seq<(Chan, Chan)> {
    if evs == [] then []
    else
      PairsOf(Front(evs), p) +
      if Last(evs).Register? && Last(evs).path == p then [(Last(evs).contentChan, Last(evs).errChan)] else []
  }

  /******* What the reads alone say should be announced *******/

  function Baseline(rs: seq<Read>): string {
    if rs == [] then "" else Effective(Last(rs))
  }

  function MessageOf(r: Read): Message {
    match r
    case Content(text) => NewContent(text)
    case Failed(err) => ReadError(err)
  }

  predicate Announced(rs: seq<Read>, r: Read) {
    r.Failed? || r.text != Baseline(rs)
  }

  function Messages(rs: seq<Read>): seq<Message> {
    if rs == [] then []
    else
      Messages(Front(rs)) + if Announced(Front(rs), Last(rs)) then [MessageOf(Last(rs))] else []
  }

  /******* The stored item is determined by the last read and the registrations *******/

  function Firsts(pairs: seq<(Chan, Chan)>): seq<Chan> {
    seq(|pairs|, i requires 0 <= i < |pairs| => pairs[i].0)
  }

  function Seconds(pairs: seq<(Chan, Chan)>): seq<Chan> {
    seq(|pairs|, i requires 0 <= i < |pairs| => pairs[i].1)
  }

  function ChannelsFor(pairs: seq<(Chan, Chan)>, r: Read): seq<Chan> {
    if r.Failed? then Seconds(pairs) else Firsts(pairs)
  }

  // The item that a path's reads and registered pairs determine, up to its stored error.
  ghost predicate Matches(item: Item, rs: seq<Read>, pairs: seq<(Chan, Chan)>) {
    item.content == Baseline(rs) && item.contentHandlers == Firsts(pairs) && item.errorHandlers == Seconds(pairs)
  }

  lemma MatchesAfterRead(item: Item, rs: seq<Read>, pairs: seq<(Chan, Chan)>, r: Read)
    requires Matches(item, rs, pairs)
    ensures Matches(AfterRead(item, r), rs + [r], pairs)
  {
    assert Last(rs + [r]) == r;
  }

  lemma MatchesAfterRegistration(item: Item, rs: seq<Read>, pairs: seq<(Chan, Chan)>, c: Chan, e: Chan)
    requires Matches(item, rs, pairs)
    ensures Matches(item.(contentHandlers := item.contentHandlers + [c], errorHandlers := item.errorHandlers + [e]),
                    rs, pairs + [(c, e)])
  {
    assert Firsts(pairs + [(c, e)]) == Firsts(pairs) + [c];
    assert Seconds(pairs + [(c, e)]) == Seconds(pairs) + [e];
  }

  lemma {:induction false} ItemIsHistory(evs: seq<Event>, p: string)
    requires LegalHistory(evs)
    ensures p in ItemsAfter(evs) <==> PairsOf(evs, p) != []
    ensures p !in ItemsAfter(evs) ==> ReadsOf(evs, p) == []
    ensures p in ItemsAfter(evs) ==> Matches(ItemsAfter(evs)[p], ReadsOf(evs, p), PairsOf(evs, p))
  {
    if evs != [] {
      var rest := Front(evs);
      ItemIsHistory(rest, p);
      match Last(evs)
      case Register(q, c, e) =>
        if q == p {
          var item := if p in ItemsAfter(rest) then ItemsAfter(rest)[p] else NEW_ITEM;
          MatchesAfterRegistration(item, ReadsOf(rest, p), PairsOf(rest, p), c, e);
        }
      case Poll(fs, _) =>
        if p in ItemsAfter(rest) {
          MatchesAfterRead(ItemsAfter(rest)[p], ReadsOf(rest, p), PairsOf(rest, p), fs[p]);
          assert PairsOf(evs, p) == PairsOf(rest, p);
        }
    }
  }

  /******* What one path's listeners receive in one poll *******/

  function OnPath(sent: seq<Delivery>, p: string): seq<Delivery> {
    if sent == [] then []
    else OnPath(Front(sent), p) + if Last(sent).path == p then [Last(sent)] else []
  }

  lemma {:induction false} OnPathConcat(a: seq<Delivery>, b: seq<Delivery>, p: string)
    ensures OnPath(a + b, p) == OnPath(a, p) + OnPath(b, p)
  {
    if b == [] {
      assert a + b == a;
    } else {
      OnPathConcat(a, Front(b), p);
      var last := if Last(b).path == p then [Last(b)] else [];
      assert Front(a + b) == a + Front(b) && Last(a + b) == Last(b);
      assert OnPath(a, p) + OnPath(Front(b), p) + last == OnPath(a, p) + (OnPath(Front(b), p) + last);
    }
  }

  lemma {:induction false} OnPathUniform(sent: seq<Delivery>, q: string, p: string)
    requires forall i :: 0 <= i < |sent| ==> sent[i].path == q
    ensures OnPath(sent, p) == if p == q then sent else []
  {
    if sent != [] {
      OnPathUniform(Front(sent), q, p);
      assert sent == Front(sent) + [Last(sent)];
    }
  }

  lemma {:induction false} OnPathOfPoll(items: Items, fs: map<string, Read>, order: seq<string>, p: string)
    requires items.Keys <= fs.Keys
    requires forall q :: q in order ==> q in items
    requires Distinct(order)
    ensures OnPath(SentInOrder(items, fs, order), p) == if p in order then SentFor(p, items[p], fs[p]) else []
  {
    if order != [] {
      var rest, q := Front(order), Last(order);
      assert order == rest + [q];
      assert p in order <==> p in rest || p == q;
      OnPathOfPoll(items, fs, rest, p);
      OnPathUniform(SentFor(q, items[q], fs[q]), q, p);
      OnPathConcat(SentInOrder(items, fs, rest), SentFor(q, items[q], fs[q]), p);
    }
  }

  lemma SentForMatching(p: string, item: Item, rs: seq<Read>, pairs: seq<(Chan, Chan)>, r: Read)
    requires Matches(item, rs, pairs)
    ensures SentFor(p, item, r) == if Announced(rs, r) then FanOut(p, ChannelsFor(pairs, r), MessageOf(r)) else []
  {
  }

  /**
   In any history, a poll sends to the listeners of a path exactly what that poll's own read
   calls for: a stored error from an earlier poll is never sent, whatever the interleaving of
   polls and registrations.
   */
  lemma PollDelivers(evs: seq<Event>, fs: map<string, Read>, order: seq<string>, p: string)
    requires LegalHistory(evs) && Legal(ItemsAfter(evs), Poll(fs, order))
    ensures OnPath(SentInOrder(ItemsAfter(evs), fs, order), p) ==
            if p in ItemsAfter(evs) && Announced(ReadsOf(evs, p), fs[p]) then
              FanOut(p, ChannelsFor(PairsOf(evs, p), fs[p]), MessageOf(fs[p]))
            else []
  {
    OnPathOfPoll(ItemsAfter(evs), fs, order, p);
    ItemIsHistory(evs, p);
    if p in ItemsAfter(evs) {
      SentForMatching(p, ItemsAfter(evs)[p], ReadsOf(evs, p), PairsOf(evs, p), fs[p]);
    }
  }

  /******* What one registration receives over the whole history *******/

  function Stream(sent: seq<Delivery>, p: string, slot: nat): seq<Message> {
    if sent == [] then []
    else Stream(Front(sent), p, slot) + if Last(sent).path == p && Last(sent).slot == slot then [Last(sent).msg] else []
  }

  lemma {:induction false} StreamConcat(a: seq<Delivery>, b: seq<Delivery>, p: string, slot: nat)
    ensures Stream(a + b, p, slot) == Stream(a, p, slot) + Stream(b, p, slot)
  {
    if b == [] {
      assert a + b == a;
    } else {
      StreamConcat(a, Front(b), p, slot);
      var last := if Last(b).path == p && Last(b).slot == slot then [Last(b).msg] else [];
      assert Front(a + b) == a + Front(b) && Last(a + b) == Last(b);
      var s1, s2 := Stream(a, p, slot), Stream(Front(b), p, slot);
      assert s1 + s2 + last == s1 + (s2 + last);
    }
  }

  lemma {:induction false} StreamSkipsOtherPaths(sent: seq<Delivery>, p: string, slot: nat)
    ensures Stream(sent, p, slot) == Stream(OnPath(sent, p), p, slot)
  {
    if sent != [] {
      StreamSkipsOtherPaths(Front(sent), p, slot);
      StreamConcat(OnPath(Front(sent), p), if Last(sent).path == p then [Last(sent)] else [], p, slot);
    }
  }

  lemma {:induction false} StreamOfFanOut(p: string, handlers: seq<Chan>, msg: Message, slot: nat)
    ensures Stream(FanOut(p, handlers, msg), p, slot) == if slot < |handlers| then [msg] else []
  {
    if handlers != [] {
      StreamOfFanOut(p, Front(handlers), msg, slot);
      assert Front(FanOut(p, handlers, msg)) == FanOut(p, Front(handlers), msg);
    }
  }

  /** How many messages had been announced for p when its slot-th pair was registered. */
  ghost function Missed(evs: seq<Event>, p: string, slot: nat): nat
    requires LegalHistory(evs)
  {
    if evs == [] then 0
    else if slot < |PairsOf(Front(evs), p)| then Missed(Front(evs), p, slot)
    else |Messages(ReadsOf(Front(evs), p))|
  }

  /**
   Every registration of a path receives the same sequence of messages, determined by the reads
   alone, from the moment it was registered: nothing lost, nothing repeated, nothing reordered.
   */
  lemma {:induction false} EveryHandlerGetsTheSameSequence(evs: seq<Event>, p: string, slot: nat)
    requires LegalHistory(evs) && slot < |PairsOf(evs, p)|
    ensures Missed(evs, p, slot) <= |Messages(ReadsOf(evs, p))|
    ensures Stream(Sent(evs), p, slot) == Messages(ReadsOf(evs, p))[Missed(evs, p, slot)..]
  {
    var rest := Front(evs);
    StreamStep(evs, p, slot);
    MessagesStep(evs, p);
    if slot < |PairsOf(rest, p)| {
      EveryHandlerGetsTheSameSequence(rest, p, slot);
      assert Missed(evs, p, slot) == Missed(rest, p, slot);
      SuffixGrows(Messages(ReadsOf(rest, p)), LastNews(evs, p), Missed(rest, p, slot));
    } else {
      NoStreamBeforeRegistration(rest, p, slot);
      assert Last(evs).Register? && LastNews(evs, p) == [];
      assert Missed(evs, p, slot) == |Messages(ReadsOf(rest, p))|;
    }
  }

  lemma SuffixGrows(msgs: seq<Message>, more: seq<Message>, n: nat)
    requires n <= |msgs|
    ensures (msgs + more)[n..] == msgs[n..] + more
  {
  }

  /** What the last event of a history adds for p, as the reads say. */
  ghost function LastNews(evs: seq<Event>, p: string): seq<Message>
    requires LegalHistory(evs) && evs != []
  {
    if Last(evs).Poll? && p in ItemsAfter(Front(evs)) && Announced(ReadsOf(Front(evs), p), Last(evs).fs[p]) then
      [MessageOf(Last(evs).fs[p])]
    else []
  }

  lemma MessagesStep(evs: seq<Event>, p: string)
    requires LegalHistory(evs) && evs != []
    ensures Messages(ReadsOf(evs, p)) == Messages(ReadsOf(Front(evs), p)) + LastNews(evs, p)
  {
    var rs := ReadsOf(Front(evs), p);
    if Last(evs).Poll? && p in ItemsAfter(Front(evs)) {
      assert Front(rs + [Last(evs).fs[p]]) == rs;
    } else {
      assert rs + [] == rs;
    }
  }

  lemma StreamOfPoll(rest: seq<Event>, fs: map<string, Read>, order: seq<string>, p: string, slot: nat)
    requires LegalHistory(rest) && Legal(ItemsAfter(rest), Poll(fs, order))
    ensures Stream(SentInOrder(ItemsAfter(rest), fs, order), p, slot) ==
            if slot < |PairsOf(rest, p)| && p in ItemsAfter(rest) && Announced(ReadsOf(rest, p), fs[p]) then
              [MessageOf(fs[p])]
            else []
  {
    StreamSkipsOtherPaths(SentInOrder(ItemsAfter(rest), fs, order), p, slot);
    PollDelivers(rest, fs, order, p);
    if p in ItemsAfter(rest) {
      StreamOfFanOut(p, ChannelsFor(PairsOf(rest, p), fs[p]), MessageOf(fs[p]), slot);
    }
  }

  lemma StreamStep(evs: seq<Event>, p: string, slot: nat)
    requires LegalHistory(evs) && evs != []
    ensures Stream(Sent(evs), p, slot) ==
            Stream(Sent(Front(evs)), p, slot) + if slot < |PairsOf(Front(evs), p)| then LastNews(evs, p) else []
  {
    var rest := Front(evs);
    match Last(evs)
    case Register(_, _, _) =>
    case Poll(fs, order) =>
      StreamConcat(Sent(rest), SentInOrder(ItemsAfter(rest), fs, order), p, slot);
      StreamOfPoll(rest, fs, order, p, slot);
  }

  lemma {:induction false} NoStreamBeforeRegistration(evs: seq<Event>, p: string, slot: nat)
    requires LegalHistory(evs) && |PairsOf(evs, p)| <= slot
    ensures Stream(Sent(evs), p, slot) == []
  {
    if evs != [] {
      NoStreamBeforeRegistration(Front(evs), p, slot);
      StreamStep(evs, p, slot);
    }
  }

  /******* Without errors: the stutter-free form of the reads *******/

  function Destutter(prev: string, texts: seq<string>): seq<string>
    decreases |texts|
  {
    if texts == [] then []
    else if texts[0] == prev then Destutter(prev, texts[1..])
    else [texts[0]] + Destutter(texts[0], texts[1..])
  }

  function AsReads(texts: seq<string>): seq<Read> {
    seq(|texts|, i requires 0 <= i < |texts| => Content(texts[i]))
  }

  function AsNews(texts: seq<string>): seq<Message> {
    seq(|texts|, i requires 0 <= i < |texts| => NewContent(texts[i]))
  }

  lemma {:induction false} DestutterSnoc(prev: string, texts: seq<string>, t: string)
    decreases |texts|
    ensures Destutter(prev, texts + [t]) ==
            Destutter(prev, texts) + if t == (if texts == [] then prev else texts[|texts| - 1]) then [] else [t]
  {
    if texts != [] {
      assert (texts + [t])[1..] == texts[1..] + [t];
      DestutterSnoc(if texts[0] == prev then prev else texts[0], texts[1..], t);
    }
  }

  lemma {:induction false} WithoutErrorsStutterFree(texts: seq<string>)
    ensures Messages(AsReads(texts)) == AsNews(Destutter("", texts))
  {
    if texts != [] {
      var rest, t := texts[..|texts| - 1], texts[|texts| - 1];
      assert texts == rest + [t];
      WithoutErrorsStutterFree(rest);
      DestutterSnoc("", rest, t);
      assert Front(AsReads(texts)) == AsReads(rest);
    }
  }

  /******* What a listener can conclude *******/

  // The latest of some messages describes a read.
  predicate Describes(msgs: seq<Message>, r: Read) {
    msgs != [] && Last(msgs) == MessageOf(r)
  }

  // Going back over reads of the empty text, the first other thing met is an error, or the start.
  predicate NothingSinceError(rs: seq<Read>) {
    rs == [] || (if Last(rs) == Content("") then NothingSinceError(Front(rs)) else Last(rs).Failed?)
  }

  // The last read looks unchanged although something else was announced last.
  predicate Unspoken(rs: seq<Read>)
    requires rs != []
  {
    Last(rs) == Content("") && NothingSinceError(rs)
  }

  /**
   The exact limit of the notifications on a path. A failed read stores the empty text, so a file
   that is then read back empty looks unchanged, and its first listener keeps believing in the error.
   */
  lemma {:induction false} AnnouncementsUpToDateExactly(rs: seq<Read>)
    requires rs != []
    ensures Describes(Messages(rs), Last(rs)) <==> !Unspoken(rs)
  {
    var rest, msgs := Front(rs), Messages(Front(rs));
    if rest != [] {
      AnnouncementsUpToDateExactly(rest);
    }
    if Announced(rest, Last(rs)) {
      assert Last(msgs + [MessageOf(Last(rs))]) == MessageOf(Last(rs));
    } else {
      assert msgs + [] == msgs;
    }
    assert Last(rs) == Content("") ==> NothingSinceError(rs) == NothingSinceError(rest);
  }

  // The reads made of p by the time its slot-th pair was registered.
  ghost function ReadsBefore(evs: seq<Event>, p: string, slot: nat): nat
    requires LegalHistory(evs)
  {
    if evs == [] then 0
    else if slot < |PairsOf(Front(evs), p)| then ReadsBefore(Front(evs), p, slot)
    else |ReadsOf(Front(evs), p)|
  }

  // Among the reads from the n-th on, one failed or differs from the effective content before it.
  ghost predicate AnnouncedFrom(rs: seq<Read>, n: nat) {
    exists k :: n <= k < |rs| && Announced(rs[..k], rs[k])
  }

  lemma {:induction false} MissedAreOfReadsBefore(evs: seq<Event>, p: string, slot: nat)
    requires LegalHistory(evs)
    ensures ReadsBefore(evs, p, slot) <= |ReadsOf(evs, p)|
    ensures Missed(evs, p, slot) == |Messages(ReadsOf(evs, p)[..ReadsBefore(evs, p, slot)])|
  {
    if evs != [] {
      var rest, rs := Front(evs), ReadsOf(Front(evs), p);
      MissedAreOfReadsBefore(rest, p, slot);
      var n := ReadsBefore(evs, p, slot);
      assert ReadsOf(evs, p)[..n] == rs[..n];
      assert rs[..|rs|] == rs;
    }
  }

  lemma {:induction false} MessagesGrowExactly(rs: seq<Read>, n: nat)
    requires n <= |rs|
    ensures |Messages(rs[..n])| <= |Messages(rs)|
    ensures |Messages(rs[..n])| < |Messages(rs)| <==> AnnouncedFrom(rs, n)
  {
    if n == |rs| {
      assert rs[..n] == rs;
    } else {
      var rest := Front(rs);
      MessagesGrowExactly(rest, n);
      assert rest[..n] == rs[..n] && rs[..|rs| - 1] == rest;
      AnnouncedFromSnoc(rs, n);
    }
  }

  lemma AnnouncedFromSnoc(rs: seq<Read>, n: nat)
    requires n < |rs|
    ensures AnnouncedFrom(rs, n) <==> AnnouncedFrom(Front(rs), n) || Announced(Front(rs), Last(rs))
  {
    var rest := Front(rs);
    assert forall k :: 0 <= k < |rest| ==> rest[..k] == rs[..k];
    assert rs[..|rest|] == rest;
    if k :| n <= k < |rest| && Announced(rest[..k], rest[k]) {
      assert Announced(rs[..k], rs[k]);
    }
    if k :| n <= k < |rs| && Announced(rs[..k], rs[k]) {
      assert k < |rest| ==> Announced(rest[..k], rest[k]);
    }
  }

  /**
   What each single registration can conclude: its latest message describes the latest read of its
   file, if and only if that read is not one left unspoken and something was announced since the
   registration. Until then a late listener has heard nothing, though the file was read for it.
   */
  lemma UpToDateExactly(evs: seq<Event>, p: string, slot: nat)
    requires LegalHistory(evs) && slot < |PairsOf(evs, p)| && ReadsOf(evs, p) != []
    ensures
      var rs := ReadsOf(evs, p);
      Describes(Stream(Sent(evs), p, slot), Last(rs))
      <==> !Unspoken(rs) && AnnouncedFrom(rs, ReadsBefore(evs, p, slot))
  {
    var rs := ReadsOf(evs, p);
    EveryHandlerGetsTheSameSequence(evs, p, slot);
    AnnouncementsUpToDateExactly(rs);
    MissedAreOfReadsBefore(evs, p, slot);
    MessagesGrowExactly(rs, ReadsBefore(evs, p, slot));
    DescribesSuffix(Messages(rs), Missed(evs, p, slot), Last(rs));
  }

  lemma DescribesSuffix(msgs: seq<Message>, n: nat, r: Read)
    requires n <= |msgs|
    ensures Describes(msgs[n..], r) <==> n < |msgs| && Describes(msgs, r)
  {
  }

  lemma RecoveryToEmptyIsSilent()
    ensures Messages([Failed("gone"), Content("")]) == [ReadError("gone")]
    ensures !Describes(Messages([Failed("gone"), Content("")]), Content(""))
  {
    var rs := [Failed("gone"), Content("")];
    assert Front(rs) == [Failed("gone")] && Front([Failed("gone")]) == [];
  }

  // A history in which p is the one path registered.
  ghost predicate WatchesOnly(evs: seq<Event>, p: string) {
    LegalHistory(evs) && ItemsAfter(evs).Keys == {p}
  }

  lemma OneMorePoll(rest: seq<Event>, p: string, text: string) returns (evs: seq<Event>)
    requires WatchesOnly(rest, p)
    ensures evs == rest + [Poll(map[p := Content(text)], [p])] && WatchesOnly(evs, p)
    ensures ReadsOf(evs, p) == ReadsOf(rest, p) + [Content(text)] && PairsOf(evs, p) == PairsOf(rest, p)
    ensures forall slot: nat :: slot < |PairsOf(rest, p)| ==> Missed(evs, p, slot) == Missed(rest, p, slot)
  {
    var poll := Poll(map[p := Content(text)], [p]);
    evs := rest + [poll];
    assert Front(evs) == rest && Last(evs) == poll;
    assert Legal(ItemsAfter(rest), poll);
    assert PairsOf(rest, p) + [] == PairsOf(rest, p);
  }

  lemma OneMoreListener(rest: seq<Event>, p: string, c: Chan, e: Chan) returns (evs: seq<Event>)
    requires rest == [] || WatchesOnly(rest, p)
    ensures evs == rest + [Register(p, c, e)] && WatchesOnly(evs, p)
    ensures ReadsOf(evs, p) == (if rest == [] then [] else ReadsOf(rest, p))
    ensures PairsOf(evs, p) == PairsOf(rest, p) + [(c, e)]
    ensures Missed(evs, p, |PairsOf(rest, p)|) == |Messages(ReadsOf(evs, p))|
  {
    evs := rest + [Register(p, c, e)];
    assert Front(evs) == rest && Last(evs) == Register(p, c, e);
    assert ReadsOf(rest, p) + [] == ReadsOf(rest, p);
  }

  lemma RepeatedReadUnannounced(text: string)
    ensures Messages([Content(text), Content(text)]) == Messages([Content(text)])
  {
    var r := Content(text);
    assert Front([r, r]) == [r] && Last([r, r]) == r && Last([r]) == r;
    assert Messages([r]) + [] == Messages([r]);
  }

  /** The second listener of a file that does not change hears nothing of it, though the file is read for it. */
  lemma LateListenerHearsNothing(p: string, text: string) returns (evs: seq<Event>)
    ensures
      var poll := Poll(map[p := Content(text)], [p]);
      evs == [Register(p, 0, 0), poll, Register(p, 1, 1), poll]
    ensures LegalHistory(evs) && |PairsOf(evs, p)| == 2 && Last(ReadsOf(evs, p)) == Content(text)
    ensures Stream(Sent(evs), p, 1) == []
  {
    evs := TwoListeners(p, text);
    assert PairsOf(evs, p) == [(0, 0)] + [(1, 1)];
    evs := OneMorePoll(evs, p, text);
    assert ReadsOf(evs, p) == [Content(text)] + [Content(text)];
    HearsNothing(evs, p, text);
  }

  lemma TwoListeners(p: string, text: string) returns (evs: seq<Event>)
    ensures evs == [Register(p, 0, 0), Poll(map[p := Content(text)], [p]), Register(p, 1, 1)]
    ensures WatchesOnly(evs, p) && ReadsOf(evs, p) == [Content(text)] && PairsOf(evs, p) == [(0, 0), (1, 1)]
    ensures Missed(evs, p, 1) == |Messages([Content(text)])|
  {
    evs := OneListener(p, text);
    evs := OneMoreListener(evs, p, 1, 1);
  }

  lemma OneListener(p: string, text: string) returns (evs: seq<Event>)
    ensures evs == [Register(p, 0, 0), Poll(map[p := Content(text)], [p])]
    ensures WatchesOnly(evs, p) && ReadsOf(evs, p) == [Content(text)] && PairsOf(evs, p) == [(0, 0)]
  {
    evs := OneMoreListener([], p, 0, 0);
    evs := OneMorePoll(evs, p, text);
  }

  lemma HearsNothing(evs: seq<Event>, p: string, text: string)
    requires LegalHistory(evs) && |PairsOf(evs, p)| == 2
    requires ReadsOf(evs, p) == [Content(text), Content(text)]
    requires Missed(evs, p, 1) == |Messages([Content(text)])|
    ensures Stream(Sent(evs), p, 1) == []
  {
    RepeatedReadUnannounced(text);
    EveryHandlerGetsTheSameSequence(evs, p, 1);
  }
}
