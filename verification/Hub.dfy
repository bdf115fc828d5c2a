/**
 The playground's stream hub for one session: a bounded log of destination events and
 bounded queues, one per subscriber, that drop what does not fit.
 */
module Hub {
  import opened Prelude

  const MAX_LOG := 50
  const QUEUE := 32

  type Event = string

  /** A subscriber's channel, with the history of what was offered to it. */
  datatype Chan = Chan(
    sim: bool,
    queue: seq<Event>,
    closed: bool,
    received: seq<Event>,
    since: nat,                // events published on its side before it subscribed
    till: nat,                 // events published on its side when it was closed, or so far
    offered: seq<Event>,
    waiting: seq<nat>)         // queue length each offered event found

  datatype Panic = SendOnClosed | CloseTwice

  datatype State = State(
    destLog: seq<Event>,
    simSubs: set<nat>,
    destSubs: set<nat>,
    chans: map<nat, Chan>,
    simHistory: seq<Event>,
    destHistory: seq<Event>,
    panics: set<Panic>)

  const INIT := State([], {}, {}, map[], [], [], {})

  datatype Step =
    | Subscribe(id: nat, sim: bool)
    | Publish(ev: Event, sim: bool)
    | Receive(id: nat)
    | Unsubscribe(id: nat)

  function Tail(s: seq<Event>): seq<Event> {
    if |s| > MAX_LOG then s[|s| - MAX_LOG..] else s
  }

  /** A non-blocking send on an open channel. */
  function Offer(ch: Chan, ev: Event): Chan {
    ch.(queue := if |ch.queue| < QUEUE then ch.queue + [ev] else ch.queue,
        offered := ch.offered + [ev],
        waiting := ch.waiting + [|ch.queue|])
  }

  function OfferAll(ch: Chan, evs: seq<Event>): Chan {
    if evs == [] then ch else Offer(OfferAll(ch, evs[..|evs| - 1]), Last(evs))
  }

  function NewChan(sim: bool, since: nat): Chan {
    Chan(sim, [], false, [], since, since, [], [])
  }

  function History(s: State, sim: bool): seq<Event> {
    if sim then s.simHistory else s.destHistory
  }

  function Subs(s: State, sim: bool): set<nat> {
    if sim then s.simSubs else s.destSubs
  }

  function SubscribeStep(s: State, id: nat, sim: bool): State {
    if id in s.chans then s
    else if sim then
      s.(simSubs := s.simSubs + {id}, chans := s.chans[id := NewChan(true, |s.simHistory|)])
    else
      s.(destSubs := s.destSubs + {id},
         chans := s.chans[id := OfferAll(NewChan(false, |s.destHistory|), s.destLog)])
  }

  /** What publishing does to each channel; only the registered ones of that side are sent to. */
  function Sent(chans: map<nat, Chan>, subs: set<nat>, ev: Event): map<nat, Chan> {
    map id | id in chans :: if id in subs then Offer(chans[id], ev).(till := chans[id].till + 1) else chans[id]
  }

  function PublishStep(s: State, ev: Event, sim: bool): State {
    var subs := Subs(s, sim);
    var s' := s.(chans := Sent(s.chans, subs, ev),
                 panics := if exists id :: id in subs && id in s.chans && s.chans[id].closed
                           then s.panics + {SendOnClosed} else s.panics);
    if sim then s'.(simHistory := s.simHistory + [ev])
    else s'.(destLog := Tail(s.destLog + [ev]), destHistory := s.destHistory + [ev])
  }

  function ReceiveStep(s: State, id: nat): State {
    if id in s.chans && s.chans[id].queue != [] then
      var ch := s.chans[id];
      s.(chans := s.chans[id := ch.(queue := ch.queue[1..], received := ch.received + [ch.queue[0]])])
    else s
  }

  /** The closure Subscribe returned; closing twice panics. */
  function UnsubscribeStep(s: State, id: nat): State {
    if id !in s.chans then s
    else if s.chans[id].closed then s.(panics := s.panics + {CloseTwice})
    else s.(simSubs := s.simSubs - {id}, destSubs := s.destSubs - {id},
            chans := s.chans[id := s.chans[id].(closed := true)])
  }

  function Next(s: State, step: Step): State {
    match step
    case Subscribe(id, sim) => SubscribeStep(s, id, sim)
    case Publish(ev, sim) => PublishStep(s, ev, sim)
    case Receive(id) => ReceiveStep(s, id)
    case Unsubscribe(id) => UnsubscribeStep(s, id)
  }

  function Exec(steps: seq<Step>): State {
    if steps == [] then INIT else Next(Exec(steps[..|steps| - 1]), Last(steps))
  }

  // ---------------------------------------------------------------- the hub's methods

  /** A buffered Go channel. */
  datatype Channel = Channel(queue: seq<Event>, closed: bool)

  /** select { case ch <- ev: default: } */
  function TrySend(ch: Channel, ev: Event): Channel {
    if |ch.queue| < QUEUE then ch.(queue := ch.queue + [ev]) else ch
  }

  class SessionHub {
    var destLog: seq<Event>
    var simSubs: set<nat>
    var destSubs: set<nat>
    var chans: map<nat, Channel>

    constructor ()
      ensures Shows(INIT)
    {
      destLog, simSubs, destSubs, chans := [], {}, {}, map[];
    }

    /** The object holds what the state says, without the state's bookkeeping. */
    ghost predicate Shows(s: State)
      reads this
    {
      && destLog == s.destLog && simSubs == s.simSubs && destSubs == s.destSubs
      && chans == Bare(s.chans)
    }

    method Subscribe(id: nat, sim: bool, ghost s: State)
      requires Shows(s) && id !in chans
      modifies this
      ensures Shows(SubscribeStep(s, id, sim))
    {
      var ch := Channel([], false);
      if sim {
        simSubs := simSubs + {id};
      } else {
        destSubs := destSubs + {id};
        ghost var born := NewChan(false, |s.destHistory|);
        var i := 0;
        while i < |destLog|
          invariant 0 <= i <= |destLog|
          invariant ch == BareChan(OfferAll(born, destLog[..i]))
        {
          assert destLog[..i + 1][..i] == destLog[..i];
          ch := TrySend(ch, destLog[i]);
          i := i + 1;
        }
        assert destLog[..|destLog|] == destLog;
      }
      chans := chans[id := ch];
    }

    /** The subscribers are visited in no particular order; none of their channels may be closed. */
    method SendToAll(subs: set<nat>, ev: Event, ghost was: map<nat, Chan>)
      requires chans == Bare(was) && subs <= was.Keys
      requires forall id :: id in subs ==> !was[id].closed
      modifies `chans
      ensures chans == Bare(Sent(was, subs, ev))
    {
      var todo := subs;
      while todo != {}
        invariant todo <= subs
        invariant chans == Bare(Sent(was, subs - todo, ev))
        decreases todo
      {
        var id :| id in todo;
        SentOneMore(was, subs - todo, id, ev);
        assert !chans[id].closed;
        assert subs - (todo - {id}) == (subs - todo) + {id};
        todo := todo - {id};
        chans := chans[id := TrySend(chans[id], ev)];
      }
      assert subs - todo == subs;
    }

    method Publish(ev: Event, sim: bool, ghost s: State)
      requires Shows(s) && Registered(s)
      modifies this
      ensures Shows(PublishStep(s, ev, sim))
    {
      if !sim {
        destLog := destLog + [ev];
        if |destLog| > MAX_LOG {
          destLog := destLog[|destLog| - MAX_LOG..];
        }
      }
      SendToAll(if sim then simSubs else destSubs, ev, s.chans);
    }

    method Receive(id: nat, ghost s: State) returns (ev: Option<Event>)
      requires Shows(s)
      modifies this
      ensures Shows(ReceiveStep(s, id))
      ensures ev == if id in s.chans && s.chans[id].queue != [] then Some(s.chans[id].queue[0]) else None
    {
      if id in chans && chans[id].queue != [] {
        ev := Some(chans[id].queue[0]);
        chans := chans[id := chans[id].(queue := chans[id].queue[1..])];
      } else {
        ev := None;
      }
    }

    method Unsubscribe(id: nat, ghost s: State)
      requires Shows(s) && id in chans && !chans[id].closed
      modifies this
      ensures Shows(UnsubscribeStep(s, id))
    {
      simSubs, destSubs := simSubs - {id}, destSubs - {id};
      chans := chans[id := chans[id].(closed := true)];
    }
  }

  function BareChan(ch: Chan): Channel { Channel(ch.queue, ch.closed) }

  function Bare(chans: map<nat, Chan>): map<nat, Channel> {
    map id | id in chans :: BareChan(chans[id])
  }

  lemma SentOneMore(chans: map<nat, Chan>, done: set<nat>, id: nat, ev: Event)
    requires id in chans && id !in done
    ensures var before := Bare(Sent(chans, done, ev));
            && id in before && before[id].closed == chans[id].closed
            && Bare(Sent(chans, done + {id}, ev)) == before[id := TrySend(before[id], ev)]
  {
    assert Sent(chans, done + {id}, ev).Keys == chans.Keys;
  }

  // ---------------------------------------------------------------- what holds on every run

  /** The offered events whose arrival found room. */
  function Kept(offered: seq<Event>, waiting: seq<nat>): seq<Event>
    requires |offered| == |waiting|
  {
    if offered == [] then []
    else
      var n := |offered| - 1;
      Kept(offered[..n], waiting[..n]) + (if waiting[n] < QUEUE then [offered[n]] else [])
  }

  ghost predicate ChanOk(ch: Chan) {
    && |ch.queue| <= QUEUE
    && |ch.offered| == |ch.waiting|
    && ch.received + ch.queue == Kept(ch.offered, ch.waiting)
    && (forall i :: 0 <= i < |ch.waiting| ==> ch.waiting[i] <= QUEUE)
  }

  lemma OfferKeeps(ch: Chan, ev: Event)
    requires ChanOk(ch)
    ensures ChanOk(Offer(ch, ev))
  {
    var ch' := Offer(ch, ev);
    var n := |ch.offered|;
    assert ch'.offered[..n] == ch.offered && ch'.waiting[..n] == ch.waiting;
    if |ch.queue| < QUEUE {
      assert ch.received + (ch.queue + [ev]) == (ch.received + ch.queue) + [ev];
    }
  }

  lemma {:induction false} OfferAllKeeps(ch: Chan, evs: seq<Event>)
    requires ChanOk(ch)
    ensures ChanOk(OfferAll(ch, evs))
    ensures OfferAll(ch, evs).offered == ch.offered + evs
    ensures var ch' := OfferAll(ch, evs);
            ch'.sim == ch.sim && ch'.closed == ch.closed && ch'.since == ch.since && ch'.till == ch.till
    decreases |evs|
  {
    if evs == [] {
      assert ch.offered + [] == ch.offered;
    } else {
      var pre := evs[..|evs| - 1];
      OfferAllKeeps(ch, pre);
      OfferKeeps(OfferAll(ch, pre), Last(evs));
      assert pre + [Last(evs)] == evs;
    }
  }

  /** A subscriber is offered the log it found, then everything published until it left. */
  ghost predicate OfferedOk(h: seq<Event>, ch: Chan) {
    && ch.since <= ch.till <= |h|
    && (!ch.closed ==> ch.till == |h|)
    && ch.offered == (if ch.sim then [] else Tail(h[..ch.since])) + h[ch.since..ch.till]
  }

  ghost predicate StreamOk(s: State, id: nat)
    requires id in s.chans
  {
    ChanOk(s.chans[id]) && OfferedOk(History(s, s.chans[id].sim), s.chans[id])
  }

  ghost predicate Registered(s: State) {
    && s.simSubs <= s.chans.Keys && s.destSubs <= s.chans.Keys
    && (forall id :: id in s.chans ==>
          && (id in s.simSubs <==> s.chans[id].sim && !s.chans[id].closed)
          && (id in s.destSubs <==> !s.chans[id].sim && !s.chans[id].closed))
  }

  ghost predicate Inv(s: State) {
    && s.destLog == Tail(s.destHistory)
    && Registered(s)
    && (forall id :: id in s.chans ==> StreamOk(s, id))
    && SendOnClosed !in s.panics
  }

  lemma TailAppend(h: seq<Event>, ev: Event)
    ensures Tail(Tail(h) + [ev]) == Tail(h + [ev])
  {
  }

  lemma SubscribeKept(s: State, id: nat, sim: bool)
    requires Inv(s)
    ensures Inv(SubscribeStep(s, id, sim))
  {
    var s' := SubscribeStep(s, id, sim);
    if id !in s.chans {
      SubscribeRegistered(s, id, sim);
      SubscribedStream(s, id, sim);
      forall k | k in s'.chans ensures StreamOk(s', k) {
        if k != id { assert StreamOk(s, k); }
      }
    }
  }

  lemma SubscribedStream(s: State, id: nat, sim: bool)
    requires id !in s.chans && s.destLog == Tail(s.destHistory)
    ensures var s' := SubscribeStep(s, id, sim); id in s'.chans && StreamOk(s', id)
  {
    NewStreamOk(History(s, sim), sim, s.destLog);
    assert OfferAll(NewChan(true, |s.simHistory|), []) == NewChan(true, |s.simHistory|);
  }

  lemma SubscribeRegistered(s: State, id: nat, sim: bool)
    requires Registered(s) && id !in s.chans && s.destLog == Tail(s.destHistory)
    ensures Registered(SubscribeStep(s, id, sim))
  {
    NewStreamOk(History(s, sim), sim, s.destLog);
  }

  lemma NewStreamOk(h: seq<Event>, sim: bool, log: seq<Event>)
    requires !sim ==> log == Tail(h)
    ensures var ch := OfferAll(NewChan(sim, |h|), if sim then [] else log);
            ChanOk(ch) && OfferedOk(h, ch) && ch.sim == sim && !ch.closed
  {
    OfferAllKeeps(NewChan(sim, |h|), if sim then [] else log);
    assert h[..|h|] == h && h[|h|..|h|] == [];
  }

  lemma SentKept(h: seq<Event>, ch: Chan, ev: Event)
    requires ChanOk(ch) && OfferedOk(h, ch)
    ensures !ch.closed ==> var sent := Offer(ch, ev).(till := ch.till + 1); ChanOk(sent) && OfferedOk(h + [ev], sent)
    ensures ch.closed ==> OfferedOk(h + [ev], ch)
  {
    var h' := h + [ev];
    assert h'[..ch.since] == h[..ch.since];
    assert h'[ch.since..ch.till] == h[ch.since..ch.till];
    if !ch.closed {
      OfferKeeps(ch, ev);
      OfferedMore(h, if ch.sim then [] else Tail(h[..ch.since]), ch.offered, ch.since, ev);
    }
  }

  lemma OfferedMore(h: seq<Event>, log: seq<Event>, offered: seq<Event>, since: nat, ev: Event)
    requires since <= |h| && offered == log + h[since..|h|]
    ensures offered + [ev] == log + (h + [ev])[since..|h| + 1]
  {
    assert (h + [ev])[since..|h| + 1] == h[since..|h|] + [ev];
  }

  lemma PublishKept(s: State, ev: Event, sim: bool)
    requires Inv(s)
    ensures Inv(PublishStep(s, ev, sim))
  {
    var s' := PublishStep(s, ev, sim);
    TailAppend(s.destHistory, ev);
    forall k | k in s'.chans ensures StreamOk(s', k) {
      assert StreamOk(s, k);
      SentKept(History(s, s.chans[k].sim), s.chans[k], ev);
    }
  }

  lemma ReceiveKept(s: State, id: nat)
    requires Inv(s)
    ensures Inv(ReceiveStep(s, id))
  {
    var s' := ReceiveStep(s, id);
    if id in s.chans && s.chans[id].queue != [] {
      forall k | k in s'.chans ensures StreamOk(s', k) {
        assert StreamOk(s, k);
        ReceiveStream(s, id, k);
      }
    }
  }

  lemma ReceiveStream(s: State, id: nat, k: nat)
    requires k in s.chans && StreamOk(s, k)
    ensures var s' := ReceiveStep(s, id); k in s'.chans && StreamOk(s', k)
  {
    if k == id && s.chans[id].queue != [] { TakeKept(s.chans[id]); }
  }

  lemma TakeKept(ch: Chan)
    requires ChanOk(ch) && ch.queue != []
    ensures ChanOk(ch.(queue := ch.queue[1..], received := ch.received + [ch.queue[0]]))
  {
    assert (ch.received + [ch.queue[0]]) + ch.queue[1..] == ch.received + ch.queue;
  }

  lemma UnsubscribeKept(s: State, id: nat)
    requires Inv(s)
    ensures Inv(UnsubscribeStep(s, id))
  {
    var s' := UnsubscribeStep(s, id);
    UnsubscribeRegistered(s, id);
    forall k | k in s'.chans ensures StreamOk(s', k) {
      assert StreamOk(s, k);
      UnsubscribeStream(s, id, k);
    }
  }

  lemma UnsubscribeRegistered(s: State, id: nat)
    requires Registered(s)
    ensures Registered(UnsubscribeStep(s, id))
  {
  }

  lemma UnsubscribeStream(s: State, id: nat, k: nat)
    requires k in s.chans && StreamOk(s, k)
    ensures var s' := UnsubscribeStep(s, id); k in s'.chans && StreamOk(s', k)
  {
  }

  lemma {:induction false} InvAlways(steps: seq<Step>)
    ensures Inv(Exec(steps))
    decreases |steps|
  {
    if steps != [] {
      var s := Exec(steps[..|steps| - 1]);
      InvAlways(steps[..|steps| - 1]);
      match Last(steps) {
        case Subscribe(id, sim) => SubscribeKept(s, id, sim);
        case Publish(ev, sim) => PublishKept(s, ev, sim);
        case Receive(id) => ReceiveKept(s, id);
        case Unsubscribe(id) => UnsubscribeKept(s, id);
      }
    }
  }

  /** a is what is left of b after crossing some of its elements out. */
  predicate IsSubsequence<T(==)>(a: seq<T>, b: seq<T>) {
    if a == [] then true
    else if b == [] then false
    else (Last(a) == Last(b) && IsSubsequence(a[..|a| - 1], b[..|b| - 1])) || IsSubsequence(a, b[..|b| - 1])
  }

  lemma {:induction false} KeptIsSubsequence(offered: seq<Event>, waiting: seq<nat>)
    requires |offered| == |waiting|
    ensures IsSubsequence(Kept(offered, waiting), offered)
    decreases |offered|
  {
    if offered != [] {
      var n := |offered| - 1;
      KeptIsSubsequence(offered[..n], waiting[..n]);
      var kept := Kept(offered, waiting);
      if waiting[n] < QUEUE {
        assert kept[..|kept| - 1] == Kept(offered[..n], waiting[..n]);
      } else {
        assert kept == Kept(offered[..n], waiting[..n]);
      }
    }
  }

  lemma {:induction false} NothingSkipped(offered: seq<Event>, waiting: seq<nat>)
    requires |offered| == |waiting| && forall i :: 0 <= i < |waiting| ==> waiting[i] < QUEUE
    ensures Kept(offered, waiting) == offered
    decreases |offered|
  {
    if offered != [] {
      var n := |offered| - 1;
      NothingSkipped(offered[..n], waiting[..n]);
      assert offered[..n] + [offered[n]] == offered;
    }
  }

  /** The events published on one side, read off the steps. */
  function Published(steps: seq<Step>, sim: bool): seq<Event> {
    if steps == [] then []
    else
      var step := Last(steps);
      Published(steps[..|steps| - 1], sim) + if step.Publish? && step.sim == sim then [step.ev] else []
  }

  lemma {:induction false} HistoriesTell(steps: seq<Step>)
    ensures Exec(steps).simHistory == Published(steps, true) && Exec(steps).destHistory == Published(steps, false)
    decreases |steps|
  {
    if steps != [] {
      HistoriesTell(steps[..|steps| - 1]);
      HistoryStep(Exec(steps[..|steps| - 1]), Last(steps));
    }
  }

  lemma HistoryStep(s: State, step: Step)
    ensures var s' := Next(s, step);
            && s'.simHistory == s.simHistory + (if step.Publish? && step.sim then [step.ev] else [])
            && s'.destHistory == s.destHistory + (if step.Publish? && !step.sim then [step.ev] else [])
  {
    assert s.simHistory + [] == s.simHistory && s.destHistory + [] == s.destHistory;
  }

  lemma TailOfPrefix(h: seq<Event>, n: nat)
    requires n <= |h|
    ensures Tail(h[..n]) == h[if n <= 50 then 0 else n - 50..n]
  {
    TailIsLastFifty(h[..n]);
  }

  lemma TailIsLastFifty(h: seq<Event>)
    ensures Tail(h) == h[if |h| <= 50 then 0 else |h| - 50..]
  {
  }

  /**
   What a subscriber of a stream h has seen: it was offered the last 50 events before it
   came (on the destination side) and everything until it left; what it received and has
   queued is what it was offered, in order, less the events that found 32 waiting.
   */
  ghost predicate Faithful(h: seq<Event>, ch: Chan) {
    && ch.since <= ch.till <= |h| && (!ch.closed ==> ch.till == |h|)
    && ch.offered == (if ch.sim then [] else h[if ch.since <= 50 then 0 else ch.since - 50..ch.since])
                     + h[ch.since..ch.till]
    && IsSubsequence(ch.received + ch.queue, ch.offered)
    && |ch.waiting| == |ch.offered| && ch.received + ch.queue == Kept(ch.offered, ch.waiting)
    && |ch.queue| <= 32
    && ((forall i :: 0 <= i < |ch.waiting| ==> ch.waiting[i] < 32) ==> ch.received + ch.queue == ch.offered)
  }

  lemma ChanFaithful(h: seq<Event>, ch: Chan)
    requires ChanOk(ch) && OfferedOk(h, ch)
    ensures Faithful(h, ch)
  {
    TailOfPrefix(h, ch.since);
    KeptIsSubsequence(ch.offered, ch.waiting);
    if forall i :: 0 <= i < |ch.waiting| ==> ch.waiting[i] < 32 { NothingSkipped(ch.offered, ch.waiting); }
  }

  /**
   On every run: the log is the last min(50, n) destination events; a subscriber has
   received and queued, in order, events of (the log it found ++ what was published until
   it left), all of them unless some event found 32 waiting; no publish reaches a closed
   channel.
   */
  lemma StreamsFaithful(steps: seq<Step>, id: nat)
    requires id in Exec(steps).chans
    ensures var all := Published(steps, false); Exec(steps).destLog == all[if |all| <= 50 then 0 else |all| - 50..]
    ensures Faithful(Published(steps, Exec(steps).chans[id].sim), Exec(steps).chans[id])
    ensures SendOnClosed !in Exec(steps).panics
  {
    var s := Exec(steps);
    InvAlways(steps);
    HistoriesTell(steps);
    TailIsLastFifty(s.destHistory);
    assert StreamOk(s, id);
    ChanFaithful(History(s, s.chans[id].sim), s.chans[id]);
  }

  /** As many of the offered events are skipped as found 32 waiting. */
  lemma {:induction false} SkippedExactly(offered: seq<Event>, waiting: seq<nat>)
    requires |offered| == |waiting|
    ensures |Kept(offered, waiting)| == |offered| - |set i | 0 <= i < |waiting| && waiting[i] >= 32|
    decreases |offered|
  {
    var full := set i | 0 <= i < |waiting| && waiting[i] >= 32;
    if offered != [] {
      var n := |offered| - 1;
      var before := set i | 0 <= i < n && waiting[..n][i] >= 32;
      SkippedExactly(offered[..n], waiting[..n]);
      assert full == before + (if waiting[n] >= 32 then {n} else {});
    } else {
      assert full == {};
    }
  }

  // ---------------------------------------------------------------- joining a long log

  lemma {:induction false} BacklogQueue(evs: seq<Event>, since: nat)
    ensures OfferAll(NewChan(false, since), evs).queue == evs[..if |evs| < QUEUE then |evs| else QUEUE]
    decreases |evs|
  {
    if evs != [] {
      var pre := evs[..|evs| - 1];
      BacklogQueue(pre, since);
      if |evs| <= QUEUE {
        assert pre[..|pre|] == pre && evs[..|evs|] == evs && pre + [Last(evs)] == evs;
      } else {
        assert pre[..QUEUE] == evs[..QUEUE];
      }
    }
  }

  /** A new destination subscriber gets the oldest 32 of the log; the most recent are the ones dropped. */
  lemma LongLogLosesTheNewest(steps: seq<Step>, id: nat)
    requires id !in Exec(steps).chans && |Exec(steps).destHistory| >= MAX_LOG
    ensures var s := Exec(steps); var h := s.destHistory;
            && |h| >= 50 && SubscribeStep(s, id, false).chans[id].queue == h[|h| - 50..|h| - 18]
  {
    var s := Exec(steps);
    InvAlways(steps);
    BacklogQueue(s.destLog, |s.destHistory|);
    TailStarts(s.destHistory);
  }

  lemma TailStarts(h: seq<Event>)
    requires |h| >= MAX_LOG
    ensures |Tail(h)| == MAX_LOG && Tail(h)[..QUEUE] == h[|h| - MAX_LOG..|h| - MAX_LOG + QUEUE]
  {
    assert Tail(h) == h[|h| - MAX_LOG..];
  }
}
