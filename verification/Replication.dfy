/** One thread's log and one client: publish appends before it broadcasts, and a
    join enters the room before it reads the capped replay. The client may leave
    or lose its connection and join again any number of times. */
module Replication {
  import opened Types
  import opened Sorting
  import opened Keys
  import opened ThreadStore
  import Induction
  import Listing

  datatype Stage =
    | Outside                           // not in the room
    | Requested(since: Option<Key>)     // `thread:join` sent with the client's cursor
    | Entered(since: Option<Key>)       // in the room, replay not yet read
    | Joined(since: Option<Key>, reply: Listing.Reply)

  /** `unsent` are logged events whose broadcast is still to come. The last four
      fields are history: events broadcast before the client last entered the room,
      events whose publisher was interrupted between append and broadcast, what
      the client showed when it last asked to join, and the log when the last
      replay was read. */
  datatype Net = Net(
    thread: Id,
    cap: nat,
    log: seq<Event>,
    unsent: set<Event>,
    stage: Stage,
    list: seq<Event>,
    channel: seq<Delivery>,
    early: set<Event>,
    dropped: set<Event>,
    held: set<Event>,
    read: seq<Event>)

  predicate InRoom(stage: Stage) {
    stage.Entered? || stage.Joined?
  }

  ghost predicate Init(n: Net) {
    && UniqueIds(n.log)
    && (forall e | e in n.log :: e.thread == n.thread)
    && n.unsent == {} && n.dropped == {} && n.early == Elements(n.log)
    && n.stage == Outside && n.channel == []
    && Sorted(Before, n.list) && Elements(n.list) <= Elements(n.log) && n.held == Elements(n.list)
  }

  datatype Step =
    | Append(event: Event)
    | Broadcast(event: Event)
    | Drop(event: Event)
    | Request
    | Enter
    | Read
    | Deliver
    | Leave

  /** The cursor a join sends: the key of the last event shown, if any. */
  function Cursor(list: seq<Event>): Option<Key> {
    if list == [] then None else Some(KeyOf(list[|list| - 1]))
  }

  predicate CanStep(n: Net, a: Step) {
    match a
    case Append(e) => e.thread == n.thread && forall i | 0 <= i < |n.log| :: n.log[i].id != e.id
    case Broadcast(e) => e in n.unsent
    case Drop(e) => e in n.unsent
    case Request => n.stage.Outside?
    case Enter => n.stage.Requested?
    case Read => n.stage.Entered?
    case Deliver => n.channel != []
    case Leave => !n.stage.Outside?
  }

  function Next(n: Net, a: Step): Net
    requires CanStep(n, a)
  {
    match a
    case Append(e) => n.(log := n.log + [e], unsent := n.unsent + {e})
    case Broadcast(e) =>
      if InRoom(n.stage) then n.(unsent := n.unsent - {e}, channel := n.channel + [One(e)])
      else n.(unsent := n.unsent - {e}, early := n.early + {e})
    case Drop(e) => n.(unsent := n.unsent - {e}, dropped := n.dropped + {e})
    case Request => n.(stage := Requested(Cursor(n.list)), held := Elements(n.list))
    case Enter => n.(stage := Entered(n.stage.since))
    case Read =>
      var reply := Listing.Replay(n.log, n.thread, n.stage.since, n.cap);
      n.(stage := Joined(n.stage.since, reply), read := n.log,
         channel := if reply.replayed == [] then n.channel else n.channel + [Bulk(reply.replayed)])
    case Deliver => n.(list := Receive(n.list, n.channel[0]), channel := n.channel[1..])
    case Leave =>
      n.(stage := Outside, channel := [], held := Elements(n.list), early := Elements(n.log) - n.unsent - n.dropped)
  }

  ghost predicate Behaviour(tr: seq<Net>, steps: seq<Step>) {
    && |tr| == |steps| + 1
    && Init(tr[0])
    && forall i | 0 <= i < |steps| :: CanStep(tr[i], steps[i]) && tr[i + 1] == Next(tr[i], steps[i])
  }

  // ----- the invariant -----

  /** Events on their way to the client. */
  function InChannel(channel: seq<Delivery>): set<Event> {
    if channel == [] then {} else Carried(channel[0]) + InChannel(channel[1..])
  }

  lemma {:induction false} InChannelAppend(channel: seq<Delivery>, d: Delivery)
    ensures InChannel(channel + [d]) == InChannel(channel) + Carried(d)
  {
    if channel == [] {
      assert channel + [d] == [d] && [d][1..] == [];
    } else {
      assert (channel + [d])[1..] == channel[1..] + [d];
      InChannelAppend(channel[1..], d);
    }
  }

  function Replayed(stage: Stage): set<Event> {
    if stage.Joined? then Elements(stage.reply.replayed) else {}
  }

  /** The events broadcast after the client entered the room. */
  function Pushed(n: Net): set<Event> {
    Elements(n.log) - n.early - n.unsent - n.dropped
  }

  ghost predicate LogInv(n: Net) {
    && UniqueIds(n.log)
    && (forall e | e in n.log :: e.thread == n.thread)
    && n.unsent <= Elements(n.log) && n.early <= Elements(n.log) && n.dropped <= Elements(n.log)
    && n.unsent !! n.early && n.unsent !! n.dropped && n.early !! n.dropped
    && n.held <= Elements(n.log)
    && Replayed(n.stage) <= Elements(n.log)
  }

  /** Nothing is lost and nothing is invented: what the client shows together with
      what is on its way is what it held, what was replayed and what was pushed. */
  ghost predicate Accounted(n: Net) {
    && Sorted(Before, n.list)
    && Elements(n.list) + InChannel(n.channel) == n.held + Replayed(n.stage) + Pushed(n)
    && (!InRoom(n.stage) ==> Pushed(n) == {} && n.channel == [] && n.held == Elements(n.list))
  }

  /** A reply covers the later events that were broadcast before entry, unless it
      was cut off by the cap; without a cursor the client held nothing and gets
      nothing. */
  ghost predicate ReplyCovers(n: Net) {
    && (!n.stage.Outside? && n.stage.since.None? ==> n.held == {})
    && (n.stage.Joined? ==>
          && UniqueIds(n.read) && (forall e | e in n.read :: e.thread == n.thread)
          && n.stage.reply == Listing.Replay(n.read, n.thread, n.stage.since, n.cap))
    && (n.stage.Joined? && n.stage.since.Some? && !n.stage.reply.truncated ==>
          forall e | e in n.early && KeyLess(n.stage.since.value, KeyOf(e)) :: e in n.stage.reply.replayed)
  }

  ghost predicate Inv(n: Net) {
    LogInv(n) && Accounted(n) && ReplyCovers(n)
  }

  lemma LogDetermines(log: seq<Event>, s: set<Event>)
    requires UniqueIds(log) && s <= Elements(log)
    ensures IdsDetermine(s)
  {
    forall a, b | a in s && b in s && a.id == b.id ensures a == b {
      assert a in log && b in log;
      var i :| 0 <= i < |log| && log[i] == a;
      var j :| 0 <= j < |log| && log[j] == b;
      assert i == j;
    }
  }

  lemma ReplayMeaning(log: seq<Event>, thread: Id, since: Option<Key>, cap: nat)
    requires UniqueIds(log) && forall e | e in log :: e.thread == thread
    ensures var reply := Listing.Replay(log, thread, since, cap);
      && (forall e | e in reply.replayed :: e in log)
      && (since.Some? && !reply.truncated ==>
            forall e | e in log && KeyLess(since.value, KeyOf(e)) :: e in reply.replayed)
  {
    if since.Some? { Listing.LogMeaning(log, thread, since); }
  }

  lemma AppendKeeps(n: Net, e: Event)
    requires Inv(n) && CanStep(n, Append(e))
    ensures Inv(Next(n, Append(e)))
  {
    var m := Next(n, Append(e));
    assert Elements(m.log) == Elements(n.log) + {e};
    assert e !in n.log;
    assert e !in n.early && e !in n.dropped;
    assert Pushed(m) == Pushed(n);
  }

  lemma BroadcastKeeps(n: Net, e: Event)
    requires Inv(n) && CanStep(n, Broadcast(e))
    ensures Inv(Next(n, Broadcast(e)))
  {
    var m := Next(n, Broadcast(e));
    assert e in n.log;
    if InRoom(n.stage) {
      InChannelAppend(n.channel, One(e));
      assert Pushed(m) == Pushed(n) + {e};
    } else {
      assert Pushed(m) == Pushed(n);
    }
  }

  lemma ReadKeeps(n: Net)
    requires Inv(n) && CanStep(n, Read)
    ensures Inv(Next(n, Read))
  {
    var m := Next(n, Read);
    var reply := Listing.Replay(n.log, n.thread, n.stage.since, n.cap);
    ReplayMeaning(n.log, n.thread, n.stage.since, n.cap);
    assert Carried(Bulk(reply.replayed)) == Elements(reply.replayed);
    InChannelAppend(n.channel, Bulk(reply.replayed));
    assert Replayed(m.stage) == Elements(reply.replayed) && Pushed(m) == Pushed(n);
  }

  lemma DeliverKeeps(n: Net)
    requires Inv(n) && CanStep(n, Deliver)
    ensures Inv(Next(n, Deliver))
  {
    var m, d := Next(n, Deliver), n.channel[0];
    var shown := Elements(n.list);
    assert shown + Carried(d) <= Elements(n.log);
    LogDetermines(n.log, shown + Carried(d));
    ReceiveShows(n.list, shown, d);
    assert Elements(m.list) == shown + Carried(d);
    assert Pushed(m) == Pushed(n);
  }

  lemma LeaveKeeps(n: Net)
    requires Inv(n) && CanStep(n, Leave)
    ensures Inv(Next(n, Leave))
  {
    var m := Next(n, Leave);
    assert Pushed(m) == {};
    assert Elements(n.list) <= Elements(n.log);
  }

  lemma StepKeeps(n: Net, a: Step)
    requires Inv(n) && CanStep(n, a)
    ensures Inv(Next(n, a))
  {
    match a
    case Append(e) => AppendKeeps(n, e);
    case Broadcast(e) => BroadcastKeeps(n, e);
    case Read => ReadKeeps(n);
    case Deliver => DeliverKeeps(n);
    case Leave => LeaveKeeps(n);
    case Drop(e) => assert Pushed(Next(n, a)) == Pushed(n);
    case Request => assert Pushed(Next(n, a)) == Pushed(n);
    case Enter => assert Pushed(Next(n, a)) == Pushed(n);
  }

  lemma {:induction false} InvAlways(tr: seq<Net>, steps: seq<Step>, k: nat)
    requires Behaviour(tr, steps) && k < |tr|
    ensures Inv(tr[k])
  {
    if k > 0 {
      InvAlways(tr, steps, k - 1);
      StepKeeps(tr[k - 1], steps[k - 1]);
    } else {
      assert Pushed(tr[0]) == {};
    }
  }

  // ----- the theorems -----

  /** Nothing is in transit. */
  predicate Quiet(n: Net) {
    n.stage.Joined? && n.channel == [] && n.unsent == {}
  }

  /** The event was in the log when the replay was read, after the cursor, and fewer
      than `cap` others lay between the two. */
  ghost predicate WithinCap(n: Net, since: Option<Key>, e: Event) {
    && since.Some? && e in n.read && IsAfter(since, e)
    && |Listing.Between(n.read, since.value, e)| < n.cap
  }

  lemma ReplayedExactly(n: Net, e: Event)
    requires Inv(n) && n.stage.Joined?
    ensures e in n.stage.reply.replayed <==> WithinCap(n, n.stage.since, e)
  {
    if n.stage.since.Some? { Listing.ReplayExactly(n.read, n.thread, n.stage.since.value, n.cap, e); }
  }

  /** A join under way was asked for by the last request: `held` is what the client
      showed then, and its cursor is the latest event shown, or absent if none was. */
  lemma {:induction false} JoinAsked(tr: seq<Net>, steps: seq<Step>, k: nat) returns (j: nat)
    requires Behaviour(tr, steps) && k < |tr| && !tr[k].stage.Outside?
    ensures j < k && steps[j].Request? && tr[k].held == Elements(tr[j].list)
    ensures var list, since := tr[j].list, tr[k].stage.since;
      if list == [] then since.None?
      else
        var last := list[|list| - 1];
        since == Some(Key(last.createdAt, last.id)) && forall i | 0 <= i < |list| - 1 :: Precedes(list[i], last)
  {
    j := k - 1;
    if steps[j].Request? {
      InvAlways(tr, steps, j);
      SortedInOrder(tr[j].list);
    } else {
      j := JoinAsked(tr, steps, j);
    }
  }

  /** The event was broadcast to the client in the room. */
  predicate Sent(n: Net, e: Event) {
    e in n.log && e !in n.unsent && e !in n.early && e !in n.dropped
  }

  lemma StaysSent(tr: seq<Net>, steps: seq<Step>, k: nat, e: Event)
    requires Behaviour(tr, steps) && k + 1 < |tr| && InRoom(tr[k].stage) && InRoom(tr[k + 1].stage)
    requires Sent(tr[k], e) || steps[k] == Broadcast(e)
    ensures Sent(tr[k + 1], e)
  {
    InvAlways(tr, steps, k);
  }

  lemma EarlyOutside(n: Net)
    requires Inv(n) && !InRoom(n.stage)
    ensures n.early == Elements(n.log) - n.unsent - n.dropped
  {
    forall e | e in Elements(n.log) - n.unsent - n.dropped ensures e in n.early {
      assert e !in Pushed(n);
    }
  }

  /** Where a client in the room last entered. */
  lemma {:induction false} LastEntry(tr: seq<Net>, steps: seq<Step>, k: nat) returns (j: nat)
    requires Behaviour(tr, steps) && k < |tr| && InRoom(tr[k].stage)
    ensures j < k && steps[j].Enter? && forall i | j < i < k :: !steps[i].Enter? && !steps[i].Leave?
    ensures forall i | j < i <= k :: InRoom(tr[i].stage)
    ensures tr[k].early == Elements(tr[j].log) - tr[j].unsent - tr[j].dropped
  {
    j := k - 1;
    var n := tr[j];
    assert tr[k] == Next(n, steps[j]);
    if steps[j].Enter? {
      InvAlways(tr, steps, j);
      EarlyOutside(n);
    } else {
      assert tr[k].early == n.early;
      j := LastEntry(tr, steps, j);
    }
  }

  lemma SentSince(tr: seq<Net>, steps: seq<Step>, i: nat, k: nat, e: Event)
    requires Behaviour(tr, steps) && i < k < |tr| && steps[i] == Broadcast(e)
    requires forall m | i <= m <= k :: InRoom(tr[m].stage)
    ensures Sent(tr[k], e)
  {
    StaysSent(tr, steps, i, e);
    var sent := (m: nat) => m < |tr| && Sent(tr[m], e);
    forall m: nat | i + 1 <= m < k && sent(m) ensures sent(m + 1) { StaysSent(tr, steps, m, e); }
    Induction.Kept(sent, i + 1, k);
  }

  /** A client in the room entered at its last `Enter`. `early` are the logged events
      that had been broadcast by then, and every event broadcast since is shown or on
      its way. */
  lemma PushedSinceEntry(tr: seq<Net>, steps: seq<Step>, k: nat) returns (j: nat)
    requires Behaviour(tr, steps) && k < |tr| && InRoom(tr[k].stage)
    ensures j < k && steps[j].Enter? && forall i | j < i < k :: !steps[i].Enter? && !steps[i].Leave?
    ensures tr[k].early == Elements(tr[j].log) - tr[j].unsent - tr[j].dropped
    ensures forall i | j < i < k && steps[i].Broadcast? ::
      steps[i].event in tr[k].list || steps[i].event in InChannel(tr[k].channel)
  {
    j := LastEntry(tr, steps, k);
    InvAlways(tr, steps, k);
    forall i | j < i < k && steps[i].Broadcast?
      ensures steps[i].event in tr[k].list || steps[i].event in InChannel(tr[k].channel)
    {
      SentSince(tr, steps, i, k, steps[i].event);
      assert steps[i].event in Pushed(tr[k]);
    }
  }

  /** Once nothing is in transit, the client shows the sorted server log exactly
      when every event that was broadcast before it entered, or never broadcast at
      all, was held by it or lay within the cap after its cursor. */
  lemma ConvergesExactly(tr: seq<Net>, steps: seq<Step>, k: nat)
    requires Behaviour(tr, steps) && k < |tr| && Quiet(tr[k])
    ensures var n := tr[k];
      n.list == Sort(Before, n.log) <==>
        forall e | e in n.early + n.dropped :: e in n.held || WithinCap(n, n.stage.since, e)
    ensures InOrder(tr[k].list)
  {
    ConvergesIfReplayed(tr, steps, k);
    InvAlways(tr, steps, k);
    SortedInOrder(tr[k].list);
    forall e ensures e in tr[k].stage.reply.replayed <==> WithinCap(tr[k], tr[k].stage.since, e) {
      ReplayedExactly(tr[k], e);
    }
  }

  lemma ConvergesIfReplayed(tr: seq<Net>, steps: seq<Step>, k: nat)
    requires Behaviour(tr, steps) && k < |tr| && Quiet(tr[k])
    ensures var n := tr[k];
      n.list == Sort(Before, n.log) <==>
        forall e | e in n.early + n.dropped :: e in n.held || e in n.stage.reply.replayed
  {
    InvAlways(tr, steps, k);
    var n := tr[k];
    UniqueIdsSort(n.log);
    assert forall e :: e in Sort(Before, n.log) <==> e in n.log;
    assert Elements(n.list) == n.held + Replayed(n.stage) + Pushed(n);
    if forall e | e in n.early + n.dropped :: e in n.held || e in n.stage.reply.replayed {
      assert Elements(n.list) == Elements(n.log);
      assert forall e :: e in n.list <==> e in Elements(n.list);
      assert forall e :: e in n.log <==> e in Elements(n.log);
      ShownOnce(n.list, Sort(Before, n.log), Elements(n.log));
    }
    if n.list == Sort(Before, n.log) {
      forall e | e in n.early + n.dropped ensures e in n.held || e in n.stage.reply.replayed {
        assert e in n.log && e in n.list;
        assert e in Elements(n.list) && e !in Pushed(n);
      }
    }
  }

  /** No gap: a client that asked with a cursor, had held every event up to it that
      was already broadcast, and got an untruncated reply, converges to the log,
      unless an interrupted publisher dropped a broadcast. */
  lemma NoGapOnJoin(tr: seq<Net>, steps: seq<Step>, k: nat)
    requires Behaviour(tr, steps) && k < |tr| && Quiet(tr[k])
    requires tr[k].stage.since.Some? && !tr[k].stage.reply.truncated
    requires forall e | e in tr[k].early && !KeyLess(tr[k].stage.since.value, KeyOf(e)) :: e in tr[k].held
    requires tr[k].dropped == {}
    ensures tr[k].list == Sort(Before, tr[k].log)
  {
    InvAlways(tr, steps, k);
    ConvergesIfReplayed(tr, steps, k);
  }

  /** The client asked to join at step `k` while it showed every logged event up to
      its cursor; since then it has stayed, and every event logged has a key after
      the cursor. */
  ghost predicate Session(tr: seq<Net>, steps: seq<Step>, k: nat, n: nat) {
    && k < n < |tr| && n <= |steps| && steps[k] == Request && tr[k].list != []
    && (forall e | e in tr[k].log && !KeyLess(Cursor(tr[k].list).value, KeyOf(e)) :: e in tr[k].list)
    && forall j | k < j < n ::
         !steps[j].Leave? && (steps[j].Append? ==> KeyLess(Cursor(tr[k].list).value, KeyOf(steps[j].event)))
  }

  lemma {:induction false} HeldUpToCursor(tr: seq<Net>, steps: seq<Step>, k: nat, n: nat)
    requires Behaviour(tr, steps) && Session(tr, steps, k, n)
    ensures !tr[n].stage.Outside? && tr[n].stage.since == Cursor(tr[k].list)
    ensures forall e | e in tr[n].log && !KeyLess(Cursor(tr[k].list).value, KeyOf(e)) :: e in tr[n].held
  {
    assert tr[k + 1] == Next(tr[k], steps[k]);
    if k + 1 < n {
      HeldUpToCursor(tr, steps, k, n - 1);
      assert CanStep(tr[n - 1], steps[n - 1]) && tr[n] == Next(tr[n - 1], steps[n - 1]);
    }
  }

  /** So whatever was appended and broadcast while it joined, a client that was
      complete up to its cursor ends with the sorted server log. */
  lemma CompleteClientConverges(tr: seq<Net>, steps: seq<Step>, k: nat, n: nat)
    requires Behaviour(tr, steps) && Session(tr, steps, k, n) && Quiet(tr[n])
    requires !tr[n].stage.reply.truncated && tr[n].dropped == {}
    ensures tr[n].list == Sort(Before, tr[n].log)
  {
    HeldUpToCursor(tr, steps, k, n);
    InvAlways(tr, steps, n);
    NoGapOnJoin(tr, steps, n);
  }

  /** At every moment of the join, not only at rest: an event after the cursor is
      shown, on its way, about to be broadcast, or about to be replayed. */
  lemma NothingSlipsThrough(tr: seq<Net>, steps: seq<Step>, k: nat, e: Event)
    requires Behaviour(tr, steps) && k < |tr| && InRoom(tr[k].stage)
    requires e in tr[k].log && tr[k].stage.since.Some? && KeyLess(tr[k].stage.since.value, KeyOf(e))
    requires tr[k].stage.Joined? ==> !tr[k].stage.reply.truncated
    ensures e in tr[k].list || e in InChannel(tr[k].channel) || e in tr[k].unsent || e in tr[k].dropped
            || (tr[k].stage.Entered? && e in Listing.LogAfter(tr[k].log, tr[k].thread, tr[k].stage.since))
  {
    InvAlways(tr, steps, k);
    var n := tr[k];
    Listing.LogMeaning(n.log, n.thread, n.stage.since);
    if e !in n.early && e !in n.unsent && e !in n.dropped {
      assert e in Pushed(n);
      assert e in Elements(n.list) + InChannel(n.channel);
    } else if e in n.early && n.stage.Joined? {
      assert e in Replayed(n.stage);
      assert e in Elements(n.list) + InChannel(n.channel);
    }
  }

  /** The event is logged and neither to be sent, shown nor on its way, while a later
      one is shown; and a join under way will not replay it. */
  ghost predicate Missing(n: Net, e: Event) {
    && e in n.log && e !in n.unsent && e !in n.list && e !in InChannel(n.channel)
    && n.list != [] && Before(e, n.list[|n.list| - 1])
    && (n.stage.Requested? || n.stage.Entered? ==> n.stage.since.Some? && !KeyLess(n.stage.since.value, KeyOf(e)))
  }

  lemma LastShownGrows(n: Net, e: Event)
    requires Inv(n) && CanStep(n, Deliver) && n.list != [] && Before(e, n.list[|n.list| - 1])
    ensures var m := Next(n, Deliver);
      && Elements(m.list) == Elements(n.list) + Carried(n.channel[0])
      && m.list != [] && Before(e, m.list[|m.list| - 1])
  {
    var m, shown := Next(n, Deliver), Elements(n.list);
    DeliverKeeps(n);
    assert shown + Carried(n.channel[0]) <= Elements(n.log);
    LogDetermines(n.log, shown + Carried(n.channel[0]));
    ReceiveShows(n.list, shown, n.channel[0]);
    BeforeIsStrict();
    var last := n.list[|n.list| - 1];
    assert last in shown && last in m.list;
    LastIsGreatest(Before, m.list);
  }

  lemma ReadSkips(n: Net, e: Event)
    requires Inv(n) && CanStep(n, Read) && Missing(n, e)
    ensures Missing(Next(n, Read), e)
  {
    var reply := Listing.Replay(n.log, n.thread, n.stage.since, n.cap);
    Listing.LogMeaning(n.log, n.thread, n.stage.since);
    assert e !in reply.replayed;
    InChannelAppend(n.channel, Bulk(reply.replayed));
  }

  lemma DeliverSkips(n: Net, e: Event)
    requires Inv(n) && CanStep(n, Deliver) && Missing(n, e)
    ensures Missing(Next(n, Deliver), e)
  {
    LastShownGrows(n, e);
    var shown := Elements(Next(n, Deliver).list);
    assert InChannel(n.channel) == Carried(n.channel[0]) + InChannel(n.channel[1..]);
    assert e !in shown;
  }

  /** No step of anybody makes up for a missing event. */
  lemma StaysMissing(n: Net, a: Step, e: Event)
    requires Inv(n) && CanStep(n, a) && Missing(n, e)
    ensures Missing(Next(n, a), e)
  {
    KeyOrder();
    match a
    case Deliver => DeliverSkips(n, e);
    case Read => ReadSkips(n, e);
    case Broadcast(x) => InChannelAppend(n.channel, One(x));
    case Append(x) => assert x != e;
    case _ =>
  }

  /** When an event before the last one shown is missing, exactly: it was broadcast
      before the client entered or never, and the client neither held it nor had
      it within the cap after its cursor. */
  lemma MissingExactly(n: Net, e: Event)
    requires Inv(n) && n.stage.Joined? && n.list != [] && Before(e, n.list[|n.list| - 1])
    ensures Missing(n, e) <==> e in n.early + n.dropped && e !in n.held && !WithinCap(n, n.stage.since, e)
  {
    ReplayedExactly(n, e);
    assert e in Elements(n.list) + InChannel(n.channel) <==> e in n.held + Replayed(n.stage) + Pushed(n);
  }

  lemma MissingStep(tr: seq<Net>, steps: seq<Step>, k: nat, e: Event)
    requires Behaviour(tr, steps) && k + 1 < |tr| && Missing(tr[k], e)
    ensures Missing(tr[k + 1], e)
  {
    InvAlways(tr, steps, k);
    StaysMissing(tr[k], steps[k], e);
  }

  /** The gap survives: whatever is published, however often the client leaves and
      joins again and whatever is replayed to it, it never shows a missing event. */
  lemma GapSurvivesRejoin(tr: seq<Net>, steps: seq<Step>, i: nat, k: nat, e: Event)
    requires Behaviour(tr, steps) && i <= k < |tr| && Missing(tr[i], e)
    ensures Missing(tr[k], e) && tr[k].list != Sort(Before, tr[k].log)
  {
    var missing := (j: nat) => j < |tr| && Missing(tr[j], e);
    forall j: nat | i <= j < k && missing(j) ensures missing(j + 1) { MissingStep(tr, steps, j, e); }
    Induction.Kept(missing, i, k);
    InvAlways(tr, steps, k);
    UniqueIdsSort(tr[k].log);
    assert e in Sort(Before, tr[k].log);
  }

  // ----- gaps happen -----

  function Name(i: nat): Id {
    if i == 0 then "" else "e" + Name(i - 1)
  }

  lemma {:induction false} NameLength(i: nat)
    ensures |Name(i)| == i
  {
    if i > 0 { NameLength(i - 1); }
  }

  /** The event logged at time `i`. */
  function Nth(thread: Id, i: nat): Event {
    Event(Name(i), i, thread, None, "u", None, Message, "", false)
  }

  function FirstEvents(thread: Id, n: nat): seq<Event> {
    seq(n, i requires 0 <= i < n => Nth(thread, i))
  }

  lemma FirstEventsOk(thread: Id, n: nat)
    ensures UniqueIds(FirstEvents(thread, n)) && Sorted(Before, FirstEvents(thread, n))
  {
    var log := FirstEvents(thread, n);
    forall i, j | 0 <= i < j < n ensures log[i].id != log[j].id && Before(log[i], log[j]) {
      NameLength(i);
      NameLength(j);
    }
  }

  lemma BetweenCount(thread: Id, n: nat, k: nat)
    requires 0 < k < n
    ensures |Listing.Between(FirstEvents(thread, n), KeyOf(Nth(thread, 0)), Nth(thread, k))| == k - 1
  {
    var log := FirstEvents(thread, n);
    var first, e := log[0], log[k];
    FirstEventsOk(thread, n);
    BeforeIsStrict();
    ElementsBelow(Before, log, k);
    assert Before(first, e);
    forall x ensures x in Listing.Between(log, KeyOf(first), e) <==> x in Below(Before, log, e) && x != first {
      if x in log {
        var i :| 0 <= i < |log| && log[i] == x;
        assert i > 0 ==> Before(log[0], log[i]);
      }
    }
    assert Listing.Between(log, KeyOf(first), e) == Below(Before, log, e) - {first};
  }

  /** A client that shows only the first event is not replayed event `cap + 1`. */
  lemma BeyondCap(thread: Id, n: nat, cap: nat)
    requires cap + 1 < n
    ensures Nth(thread, cap + 1) !in
            Listing.Replay(FirstEvents(thread, n), thread, Some(KeyOf(Nth(thread, 0))), cap).replayed
  {
    FirstEventsOk(thread, n);
    BetweenCount(thread, n, cap + 1);
    Listing.ReplayExactly(FirstEvents(thread, n), thread, KeyOf(Nth(thread, 0)), cap, Nth(thread, cap + 1));
  }

  lemma ShowsTwo(a: Event, b: Event)
    requires Before(a, b) && a.id != b.id
    ensures AddTo([a], b) == [a, b]
  {
    BeforeIsStrict();
    assert !Before(b, a) by { assert Before(b, a) ==> Before(a, a); }
    assert ([a] + [b])[..1] == [a] && [a][..0] == [];
    assert Sort(Before, [a]) == [a];
  }

  ghost predicate Reachable(n: Net) {
    exists tr, steps :: Behaviour(tr, steps) && tr[|tr| - 1] == n
  }

  lemma ReachStep(n: Net, a: Step)
    requires Reachable(n) && CanStep(n, a)
    ensures Reachable(Next(n, a))
  {
    var tr, steps :| Behaviour(tr, steps) && tr[|tr| - 1] == n;
    var tr', steps' := tr + [Next(n, a)], steps + [a];
    forall i | 0 <= i < |steps'| ensures CanStep(tr'[i], steps'[i]) && tr'[i + 1] == Next(tr'[i], steps'[i]) {
      assert i < |steps| ==> tr'[i] == tr[i] && tr'[i + 1] == tr[i + 1] && steps'[i] == steps[i];
    }
    assert Behaviour(tr', steps') && tr'[|tr'| - 1] == Next(n, a);
  }

  /** The client shows the first of `cap + 2` events and has entered the room. */
  function AtDoor(thread: Id, cap: nat): Net {
    var first, log := Nth(thread, 0), FirstEvents(thread, cap + 2);
    Net(thread, cap, log, {}, Entered(Some(KeyOf(first))), [first], [], Elements(log), {}, {first}, [])
  }

  lemma ReachDoor(thread: Id, cap: nat)
    ensures Reachable(AtDoor(thread, cap))
  {
    var n := AtDoor(thread, cap).(stage := Outside);
    FirstEventsOk(thread, cap + 2);
    assert n.log[0] == n.list[0] && Elements(n.list) == {n.list[0]};
    assert Init(n) && Behaviour([n], []) && [n][|[n]| - 1] == n;
    ReachStep(n, Request);
    var m := Next(n, Request);
    assert m == AtDoor(thread, cap).(stage := Requested(Some(KeyOf(Nth(thread, 0)))));
    ReachStep(m, Enter);
    assert Next(m, Enter) == AtDoor(thread, cap);
  }

  /** Then one more event is logged, pushed and shown before the replay is read. */
  function BeforeRead(thread: Id, cap: nat): Net {
    AtDoor(thread, cap).(log := FirstEvents(thread, cap + 3), list := [Nth(thread, 0), Nth(thread, cap + 2)])
  }

  /** The new event is logged and its broadcast is still to come. */
  function AfterAppend(thread: Id, cap: nat): Net {
    AtDoor(thread, cap).(log := FirstEvents(thread, cap + 3), unsent := {Nth(thread, cap + 2)})
  }

  lemma ReachAppend(thread: Id, cap: nat)
    ensures Reachable(AfterAppend(thread, cap))
  {
    var n, x := AtDoor(thread, cap), Nth(thread, cap + 2);
    ReachDoor(thread, cap);
    forall i | 0 <= i < |n.log| ensures n.log[i].id != x.id {
      NameLength(i);
      NameLength(cap + 2);
    }
    ReachStep(n, Append(x));
    assert FirstEvents(thread, cap + 3) == n.log + [x];
    assert Next(n, Append(x)) == AfterAppend(thread, cap);
  }

  lemma ReachRead(thread: Id, cap: nat)
    ensures Reachable(BeforeRead(thread, cap))
  {
    var n, first, x := AfterAppend(thread, cap), Nth(thread, 0), Nth(thread, cap + 2);
    ReachAppend(thread, cap);
    ReachStep(n, Broadcast(x));
    var m := n.(unsent := {}, channel := [One(x)]);
    assert Next(n, Broadcast(x)) == m;
    ReachStep(m, Deliver);
    NameLength(0);
    NameLength(cap + 2);
    ShowsTwo(first, x);
    assert Next(m, Deliver) == BeforeRead(thread, cap);
  }

  lemma ReadLeavesGap(n: Net, e: Event)
    requires CanStep(n, Read) && n.channel == []
    requires e in n.log && e !in n.unsent && e !in n.list && n.list != [] && Before(e, n.list[|n.list| - 1])
    requires e !in Listing.Replay(n.log, n.thread, n.stage.since, n.cap).replayed
    ensures Missing(Next(n, Read), e)
  {
    InChannelAppend([], Bulk(Listing.Replay(n.log, n.thread, n.stage.since, n.cap).replayed));
  }

  lemma NotShown(thread: Id, cap: nat)
    ensures var n, e := BeforeRead(thread, cap), Nth(thread, cap + 1);
      && e in n.log && e !in n.list && Before(e, n.list[|n.list| - 1])
  {
    var log := FirstEvents(thread, cap + 3);
    assert log[cap + 1] == Nth(thread, cap + 1);
  }

  /** Gaps happen: the client shows the oldest of `cap + 2` events, a newer event is
      pushed to it, and the replay is cut off before the last old one. So for every
      cap an event can go missing. */
  lemma GapsHappen(thread: Id, cap: nat) returns (n: Net)
    ensures Reachable(n) && n.cap == cap && Missing(n, Nth(thread, cap + 1))
  {
    var m := BeforeRead(thread, cap);
    ReachRead(thread, cap);
    ReachStep(m, Read);
    n := Next(m, Read);
    NotShown(thread, cap);
    BeyondCap(thread, cap + 3, cap);
    ReadLeavesGap(m, Nth(thread, cap + 1));
  }

  /** A client that shows nothing sends no cursor and is replayed nothing, so it
      converges exactly when nothing had been broadcast before it entered and no
      broadcast was dropped. */
  lemma EmptyClientNeedsEmptyPast(tr: seq<Net>, steps: seq<Step>, k: nat)
    requires Behaviour(tr, steps) && k < |tr| && Quiet(tr[k]) && tr[k].stage.since.None?
    ensures tr[k].list == Sort(Before, tr[k].log) <==> tr[k].early == {} && tr[k].dropped == {}
  {
    InvAlways(tr, steps, k);
    ConvergesIfReplayed(tr, steps, k);
  }
}
