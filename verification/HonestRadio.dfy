/** The honest lock behind a radio: the pump carries a whole opening. */
module HonestRadio {
  import opened Bytes
  import opened Session
  import opened SessionRuns
  import opened SessionLedger
  import opened Pump
  import opened PumpRuns
  import opened Opening
  import Cbc
  import Channel
  import MobileKey
  import Stack
  import Ssp

  // ------------------------------------------------- what the session has written is what goes over the wire

  /** The app protocol request, when the options call for it. */
  function Announcement(options: Options): seq<bytes> {
    if options.detection == AppProtocol && options.notifyReadable then [[0xC0, 0x01, 0x01]] else []
  }

  lemma {:induction false} NoLateAnnouncement(level: int, a: seq<Action>)
    requires level >= 3 && WatchAll(level, a) >= 0
    ensures forall i :: 0 <= i < |a| ==> !a[i].AnnounceAppProtocol?
    decreases a
  {
    if a != [] {
      if Watch(level, a[0]) < 0 {
        WatchBroken(Watch(level, a[0]), a[1..]);
      }
      NoLateAnnouncement(Watch(level, a[0]), a[1..]);
    }
  }

  /** Without an announcement the wire is what the totals count as written. */
  lemma {:induction false} WireIsTallied(l: Ledger, a: seq<Action>)
    requires forall i :: 0 <= i < |a| ==> !a[i].AnnounceAppProtocol?
    ensures TallyAll(l, a).written == l.written + Wire(a)
  {
    if a != [] {
      var before, last := a[..|a| - 1], a[|a| - 1];
      assert a == before + [last];
      WireIsTallied(l, before);
      TallyJoin(l, before, [last]);
      TallyTwo(TallyAll(l, before), last, last);
    }
  }

  /** The announcement this poll asks for. */
  function AnnouncedBy(s: Session, e: Event): seq<bytes> {
    if s.state.Idle? && !s.finished && e.Started? then Announcement(s.options) else []
  }

  lemma IdleWire(s: Session, e: Event, l: Ledger)
    requires s.state.Idle? && !s.finished
    requires l.written == []
    ensures var out := PollIdle(s, e).1; AnnouncedBy(s, e) + TallyAll(l, out).written == l.written + Wire(out)
  {
    hide KeyFor, StartFlow, TallyAll, Wire;
    var out := PollIdle(s, e).1;
    if e.Started? && s.options.detection == AppProtocol && s.options.notifyReadable {
      var read := ReadProtocolInfo(s.options.timeouts.protocolInfoReadMs);
      assert out == [Report(DetectingVersion)] + [AnnounceAppProtocol] + [read];
      TallyDetection(l, [AnnounceAppProtocol], read);
      AnnouncedWire(read);
    } else {
      WireIsTallied(l, out);
    }
  }

  lemma AnnouncedWire(read: Action)
    requires read.ReadProtocolInfo?
    ensures Wire([Report(DetectingVersion)] + [AnnounceAppProtocol] + [read]) == [[0xC0, 0x01, 0x01]]
  {
    var a, b, c := [Report(DetectingVersion)], [AnnounceAppProtocol], [read];
    WireJoin(a + b, c);
    WireJoin(a, b);
    assert a[..0] == [] && b[..0] == [] && c[..0] == [];
  }

  /** Each poll puts on the wire its announcement and what the totals count. */
  lemma PollWire(env: Ssp.Env, s: Session, e: Event, l: Ledger)
    requires s.state.Idle? ==> l.written == []
    ensures var out := Poll(env, s, e).1; AnnouncedBy(s, e) + TallyAll(l, out).written == l.written + Wire(out)
  {
    hide PollIdle, PollDetecting, PollV0200, PollV0100, Wire, TallyAll, WatchAll;
    var out := Poll(env, s, e).1;
    if s.finished || e.Aborted? {
      WireIsTallied(l, out);
    } else if s.state.Idle? {
      IdleWire(s, e, l);
    } else {
      WatchPoll(env, s, e);
      NoLateAnnouncement(Level(s), out);
      WireIsTallied(l, out);
    }
  }

  /** The wire is the announcement, once the session has started, and then what it has written. */
  predicate Tied(s: Session, wire: seq<bytes>, written: seq<bytes>) {
    if s.state.Idle? then wire == [] && written == [] else wire == Announcement(s.options) + written
  }

  lemma TiedStep(
    s: Session, s': Session, e: Event, wire: seq<bytes>, written: seq<bytes>, more: seq<bytes>, now: seq<bytes>)
    requires Tied(s, wire, written) && s'.options == s.options
    requires s'.state.Idle? <==> s.state.Idle? && (s.finished || !e.Started?)
    requires AnnouncedBy(s, e) + now == written + more
    requires s'.state.Idle? ==> now == []
    ensures Tied(s', wire + more, now)
  {
    var announcement := Announcement(s.options);
    assert announcement + written + more == announcement + (written + more);
  }

  /** Over every run. */
  lemma {:induction false} WireIsWritten(env: Ssp.Env, key: MobileKey.Key, options: Options, events: seq<Event>)
    ensures Tied(Reached(env, New(key, options), events), Wire(Emitted(env, New(key, options), events)),
                 Totals(env, key, options, events).written)
  {
    hide Poll, Accounts, Tied, TallyAll;
    if events == [] {
      NothingTied(key, options);
    } else {
      var before, last := events[..|events| - 1], events[|events| - 1];
      assert before + [last] == events;
      WireIsWritten(env, key, options, before);
      var s, l := Reached(env, New(key, options), before), Totals(env, key, options, before);
      IdleWritesNothing(env, key, options, before);
      IdleWritesNothing(env, key, options, events);
      TotalsStep(env, key, options, before, last);
      WireJoin(Emitted(env, New(key, options), before), Poll(env, s, last).1);
      PollWire(env, s, last, l);
      OnlyStartLeavesIdle(env, s, last);
      PollKeepsKey(env, s, last);
      TiedStep(s, Poll(env, s, last).0, last, Wire(Emitted(env, New(key, options), before)), l.written,
               Wire(Poll(env, s, last).1), Totals(env, key, options, events).written);
    }
  }

  lemma NothingTied(key: MobileKey.Key, options: Options)
    ensures Tied(New(key, options), [], TallyAll(BLANK, []).written)
  {
  }

  lemma IdleWritesNothing(env: Ssp.Env, key: MobileKey.Key, options: Options, events: seq<Event>)
    ensures Reached(env, New(key, options), events).state.Idle? ==> Totals(env, key, options, events).written == []
  {
    hide Poll, AccountsV0200, AccountsV0100;
    LedgerRun(env, key, options, events);
  }

  /** Only the start leaves the idle state. */
  lemma OnlyStartLeavesIdle(env: Ssp.Env, s: Session, e: Event)
    ensures Poll(env, s, e).0.state.Idle? <==> s.state.Idle? && (s.finished || !e.Started?)
  {
    hide Stack.HandlePacket, KeyFor, StartFlow, Answered, Cbc.Encrypt;
  }

  // ------------------------------------------------- a radio that works

  ghost predicate NeverFails(radio: Radio) {
    forall n: nat :: radio.write(n).None? && radio.subscribe(n).None?
  }

  lemma {:induction false} NoFailure(radio: Radio, t: Turn, a: seq<Action>)
    requires NeverFails(radio) && t.exit.None?
    ensures var exit := DoAll(radio, t, a).exit; exit.Some? ==> exit.value.Ended?
  {
    if a != [] {
      NoFailure(radio, t, a[..|a| - 1]);
    }
  }

  /** The loop is in agreement with the session's history, about to hand in an event the session expects. */
  ghost predicate Ready(env: Ssp.Env, radio: Radio, key: MobileKey.Key, options: Options, l: Loop) {
    Steady(env, radio, key, options, l) && Fits(l.session, l.pending)
  }

  /** With a radio that works, a round stays in the loop exactly when the session is not finished. */
  lemma BatchExit(env: Ssp.Env, radio: Radio, key: MobileKey.Key, options: Options, l: Loop)
    requires NeverFails(radio) && Ready(env, radio, key, options, l)
    ensures var (t, s) := (Batch(env, radio, l), Reached(env, New(key, options), l.fed + [l.pending]));
      && (t.exit.None? <==> !s.finished)
      && (t.exit.Some? ==> t.exit.value.Ended?)
      && t.world.received == l.world.received
  {
    hide Poll, Do, NeverFails;
    var t, out := Turn(l.world, None, l.deadline, None), Poll(env, l.session, l.pending).1;
    BatchKeeps(env, radio, key, options, l);
    NoFailure(radio, t, out);
    DoAllReceived(radio, t, out);
    if Batch(env, radio, l).exit.Some? {
      EndedResult(env, key, options, l.fed, l.pending, Batch(env, radio, l).exit.value.result);
    }
  }

  /** The event a reception becomes after these events. */
  function Becomes(
    env: Ssp.Env, key: MobileKey.Key, options: Options, events: seq<Event>, r: Reception): Event
  {
    var armed := Totals(env, key, options, events).armed;
    EventOf(r, if armed.Some? then armed.value.0 else FirstPacket)
  }

  /** A round that leaves the session waiting in the v0200 exchange hands in the next reception. */
  lemma Onward(env: Ssp.Env, radio: Radio, key: MobileKey.Key, options: Options, l: Loop)
    requires NeverFails(radio) && Ready(env, radio, key, options, l)
    requires var s := Reached(env, New(key, options), l.fed + [l.pending]); s.state.V0200? && !s.finished
    requires l.world.received < |radio.receptions|
    ensures var p := Iterate(env, radio, l);
      && p.Going? && Ready(env, radio, key, options, p.loop)
      && p.loop.fed == l.fed + [l.pending] && p.loop.world.received == l.world.received + 1
      && p.loop.pending == Becomes(env, key, options, p.loop.fed, radio.receptions[l.world.received])
  {
    hide Poll, Do, DoAll, NeverFails, Reached, Follows, Seen, Asks, Emitted, TallyAll, Tolerated, EventOf;
    BatchExit(env, radio, key, options, l);
    BatchKeeps(env, radio, key, options, l);
    InfoWhileDetecting(env, radio, l);
    var t := Batch(env, radio, l);
    var next := Loop(Poll(env, l.session, l.pending).0, l.pending, t.deadline, t.world, l.fed + [l.pending]);
    AwaitKeeps(env, radio, key, options, next);
    AwaitFollows(radio, next);
  }

  /** A round that finishes the session leaves the loop with its result. */
  lemma Finishes(env: Ssp.Env, radio: Radio, key: MobileKey.Key, options: Options, l: Loop)
    requires NeverFails(radio) && Ready(env, radio, key, options, l)
    requires Totals(env, key, options, l.fed + [l.pending]).result.Some?
    ensures var p := Iterate(env, radio, l);
      && p.Left? && p.loop.fed == l.fed + [l.pending]
      && p.exit == Ended(Totals(env, key, options, l.fed + [l.pending]).result.value)
  {
    hide Poll, Do, DoAll, NeverFails, Reached, TallyAll;
    LedgerRun(env, key, options, l.fed + [l.pending]);
    BatchExit(env, radio, key, options, l);
    RoundLeft(env, radio, key, options, l);
  }

  /** The receptions are the packets and then this one, a lost link or a wait that expires. */
  ghost predicate Plays(radio: Radio, packets: seq<bytes>, last: Reception) {
    && |radio.receptions| == |packets| + 1
    && (forall i :: 0 <= i < |packets| ==> radio.receptions[i] == Reception.Packet(packets[i]))
    && radio.receptions[|packets|] == last && !last.Packet?
  }

  /** The result once the lock is gone or silent: the first final verdict, or a timeout when there is none. */
  function Ending(
    env: Ssp.Env, key: MobileKey.Key, options: Options, packets: seq<bytes>, last: Reception): Result<Outcome>
  {
    var session, t := KeyFor(key, options.mode), options.timeouts;
    var verdict := FirstVerdict(session, Commands(env, session, packets));
    if last.Expired? && verdict.None? then Err(Timeout(if packets == [] then t.firstPacketMs else t.packetMs))
    else Ok(NewOutcome(2, verdict))
  }

  lemma TimingOut(env: Ssp.Env, s: Session, l: Ledger, id: TimerId)
    requires s.state.V0200? && !s.finished
    ensures TallyAll(l, Poll(env, s, Timer(id)).1).written == l.written
  {
    hide Stack.HandlePacket, TallyAll;
    var f := s.state.flow;
    TallyNotedEnd(l, Info(SilentAfterResult), s, Ok(NewOutcome(2, f.finalOpResult)));
    TallyNotedEnd(l, Info(NoPacket), s, Err(Timeout(NextWait(s.options.timeouts, f).1)));
  }

  /** A waiting session that loses its lock. */
  lemma LockGone(
    env: Ssp.Env, key: MobileKey.Key, options: Options, events: seq<Event>, packets: seq<bytes>, last: Reception)
    requires Waits(env, key, options, events, packets) && !last.Packet?
    ensures var fed := events + [Becomes(env, key, options, events, last)];
      && Totals(env, key, options, fed).result == Some(Ending(env, key, options, packets, last))
      && Totals(env, key, options, fed).written == StackRun(env, KeyFor(key, options.mode), packets).1
  {
    hide StackRun, Commands, FirstVerdict, Poll, Accounts, TallyAll, KeyFor;
    if last.Expired? {
      var s, id := Reached(env, New(key, options), events), Becomes(env, key, options, events, last).id;
      LedgerRun(env, key, options, events);
      TimerEnds(env, key, options, events, id);
      TimerAgreement(env, key, options, events);
      TotalsStep(env, key, options, events, Timer(id));
      FlowIsRun(env, s, Totals(env, key, options, events));
      TimingOut(env, s, Totals(env, key, options, events), id);
    } else {
      LinkEnds(env, key, options, events, packets);
    }
  }

  /** From the first reception on, the pump hands in every packet and then the last reception. */
  lemma {:induction false} PlaysOn(
    env: Ssp.Env, radio: Radio, key: MobileKey.Key, options: Options, opening: seq<Event>, packets: seq<bytes>,
    last: Reception, k: nat, l: Loop)
    requires NeverFails(radio) && Plays(radio, packets, last) && k <= |packets|
    requires Waits(env, key, options, opening, []) && EachServed(env, KeyFor(key, options.mode), packets)
    requires Ready(env, radio, key, options, l) && l.world.received == k + 1
    requires l.fed == opening + Notifications(packets[..k])
    requires l.pending == Becomes(env, key, options, l.fed, radio.receptions[k])
    ensures var (p, events) := (Drive(env, radio, l), opening + Notifications(packets));
      && p.Left? && p.loop.fed == events + [Becomes(env, key, options, events, last)]
      && p.exit == Ended(Ending(env, key, options, packets, last))
    decreases |packets| - k
  {
    hide Iterate, Ready, Waits, EachServed, NeverFails, TallyAll, Emitted, Reached, Ending, Becomes, EventOf;
    DriveStep(env, radio, l, Iterate(env, radio, l));
    if k == |packets| {
      assert packets[..k] == packets;
      Carried(env, key, options, opening, packets);
      LockGone(env, key, options, opening + Notifications(packets), packets, last);
      Finishes(env, radio, key, options, l);
    } else {
      HeardPacket(env, key, options, l.fed, packets[k]);
      assert packets[..k + 1] == packets[..k] + [packets[k]];
      NotificationsPush(opening, packets[..k], packets[k]);
      EachServedPrefix(env, KeyFor(key, options.mode), packets, k + 1);
      Carried(env, key, options, opening, packets[..k + 1]);
      WaitsMeans(env, key, options, opening + Notifications(packets[..k + 1]), packets[..k + 1]);
      Onward(env, radio, key, options, l);
      PlaysOn(env, radio, key, options, opening, packets, last, k + 1, Iterate(env, radio, l).loop);
    }
  }

  lemma HeardPacket(env: Ssp.Env, key: MobileKey.Key, options: Options, events: seq<Event>, packet: bytes)
    ensures Becomes(env, key, options, events, Reception.Packet(packet)) == Notification(packet)
  {
    hide Totals;
  }

  lemma WaitsMeans(env: Ssp.Env, key: MobileKey.Key, options: Options, events: seq<Event>, packets: seq<bytes>)
    requires Waits(env, key, options, events, packets)
    ensures var s := Reached(env, New(key, options), events); s.state.V0200? && !s.finished
  {
  }

  lemma {:induction false} EachServedPrefix(env: Ssp.Env, key: MobileKey.Key, packets: seq<bytes>, k: nat)
    requires k <= |packets| && EachServed(env, key, packets)
    ensures EachServed(env, key, packets[..k])
  {
    hide Stack.HandlePacket, StackRun;
    if k == |packets| {
      assert packets[..k] == packets;
    } else {
      var before := packets[..|packets| - 1];
      EachServedPrefix(env, key, before, k);
      assert before[..k] == packets[..k];
    }
  }

  // ------------------------------------------------- the opening rounds

  /** The events before the first reception. */
  function OpeningEvents(radio: Radio, options: Options): seq<Event> {
    if Looks(options) then [Started, ProtocolInfo(InfoOf(radio.read(0)))] else [Started]
  }

  /** While detecting, the first round hands in what was read. */
  lemma ReadingRound(env: Ssp.Env, radio: Radio, key: MobileKey.Key, options: Options)
    requires NeverFails(radio) && Looks(options)
    ensures var p := Iterate(env, radio, Start(key, options));
      && p.Going? && Ready(env, radio, key, options, p.loop)
      && p.loop.fed == [Started] && p.loop.world.received == 0
      && p.loop.pending == ProtocolInfo(InfoOf(radio.read(0)))
  {
    hide NeverFails, PollV0200, PollV0100, PollDetecting, Steady;
    var l, read := Start(key, options), ReadProtocolInfo(options.timeouts.protocolInfoReadMs);
    StartSteady(env, radio, key, options);
    RoundKeeps(env, radio, key, options, l);
    var announce := if options.detection == AppProtocol then [AnnounceAppProtocol] else [];
    var first := [Report(DetectingVersion)] + announce;
    assert Poll(env, New(key, options), Started).1 == first + [read];
    DetectionRead(radio, Turn(l.world, None, None, None), announce, read);
  }

  /** The opening rounds lead to a loop about to hand in the first reception. */
  lemma Opens(env: Ssp.Env, radio: Radio, key: MobileKey.Key, options: Options, opening: seq<Event>) returns (l: Loop)
    requires NeverFails(radio) && opening == OpeningEvents(radio, options)
    requires Looks(options) ==> V0200Info(InfoOf(radio.read(0)))
    requires radio.receptions != []
    ensures Waits(env, key, options, opening, [])
    ensures Drive(env, radio, Start(key, options)) == Drive(env, radio, l)
    ensures Ready(env, radio, key, options, l) && l.world.received == 1
    ensures l.fed == opening && l.pending == Becomes(env, key, options, opening, radio.receptions[0])
  {
    hide Iterate, NeverFails, Steady, Fits, Drive, Waits, Reached, Becomes;
    var start := Start(key, options);
    StartSteady(env, radio, key, options);
    Enters(env, key, options, InfoOf(radio.read(0)));
    WaitsMeans(env, key, options, opening, []);
    assert [] + [Started] == [Started];
    DriveStep(env, radio, start, Iterate(env, radio, start));
    if Looks(options) {
      ReadingRound(env, radio, key, options);
      var detecting := Iterate(env, radio, start).loop;
      assert [Started] + [ProtocolInfo(InfoOf(radio.read(0)))] == opening;
      DriveStep(env, radio, detecting, Iterate(env, radio, detecting));
      Onward(env, radio, key, options, detecting);
      l := Iterate(env, radio, detecting).loop;
    } else {
      Onward(env, radio, key, options, start);
      l := Iterate(env, radio, start).loop;
    }
  }

  // ------------------------------------------------- the whole attempt

  /** A working radio that plays an honest lock's packets and then loses it: what the pump leaves behind. */
  lemma Attempt(
    env: Ssp.Env, radio: Radio, key: MobileKey.Key, options: Options, opening: seq<Event>, packets: seq<bytes>,
    last: Reception)
    requires NeverFails(radio) && Plays(radio, packets, last) && opening == OpeningEvents(radio, options)
    requires Looks(options) ==> V0200Info(InfoOf(radio.read(0)))
    requires EachServed(env, KeyFor(key, options.mode), packets)
    ensures Waits(env, key, options, opening, [])
    ensures var p := Drive(env, radio, Start(key, options));
      && p.Left? && p.exit == Ended(Ending(env, key, options, packets, last))
      && SentOver(p.loop.world.log) == Announcement(options) + StackRun(env, KeyFor(key, options.mode), packets).1
  {
    hide NeverFails, Drive, Waits, EachServed, Ready, Emitted, Wire, TallyAll, StackRun, Becomes, Ending;
    var l := Opens(env, radio, key, options, opening);
    assert opening + Notifications([]) == opening && packets[..0] == [];
    PlaysOn(env, radio, key, options, opening, packets, last, 0, l);
    RadioSeesTheWire(env, radio, key, options);
    Carried(env, key, options, opening, packets);
    var events := opening + Notifications(packets);
    var e := Becomes(env, key, options, events, last);
    LockGone(env, key, options, events, packets, last);
    WireIsWritten(env, key, options, events + [e]);
    WaitsMeans(env, key, options, events, packets);
    Underway(env, key, options, events, e);
  }

  /** No event takes a waiting session back to the start. */
  lemma Underway(env: Ssp.Env, key: MobileKey.Key, options: Options, events: seq<Event>, e: Event)
    requires Reached(env, New(key, options), events).state.V0200?
    ensures var s := Reached(env, New(key, options), events + [e]); !s.state.Idle? && s.options == options
  {
    hide Poll;
    assert (events + [e])[..|events|] == events;
    OnlyStartLeavesIdle(env, Reached(env, New(key, options), events), e);
    LedgerRun(env, key, options, events + [e]);
  }

  /**
   * The whole attempt over the radio. A radio whose calls all succeed plays the packets of any honest conversation
   * and then loses the lock, which drops the link or falls silent: `run_session` returns the first final verdict among
   * the lock's accepted audit writes or, after a silence without one, the timeout it waited for; it has sent exactly
   * the announcement, if the options call for one, and the stack's replies, in order, and ends with the finished
   * phase and the teardown.
   */
  lemma HonestAttempt(
    env: Ssp.Env, radio: Radio, key: MobileKey.Key, options: Options, a: Block,
    prelude: seq<Stack.Move>, moves: seq<Stack.Move>, talk: Talk, last: Reception)
    requires env.cipher.Valid() && ValidPrelude(prelude) && Valid(moves)
    requires Busy(KeyFor(key, options.mode), prelude + moves)
    requires talk == Converse(env, KeyFor(key, options.mode), a, prelude, moves)
    requires NeverFails(radio) && Plays(radio, talk.packets, last)
    requires Looks(options) ==> V0200Info(InfoOf(radio.read(0)))
    ensures var session := KeyFor(key, options.mode);
      var p := RunSession(env, radio, New(key, options), World(0, 0, 0, 0, []));
      var (log, verdict) := (p.loop.world.log, FirstVerdict(session, CommandsOf(prelude + moves)));
      && p.Left?
      && p.exit == Ended(
        if last == Expired && verdict.None? then Err(Timeout(options.timeouts.packetMs))
        else Ok(NewOutcome(2, verdict)))
      && SentOver(log) == Announcement(options) + StackRun(env, session, talk.packets).1
      && talk.answers == Direct(session, prelude + moves).1
      && |log| >= 2 && log[|log| - 2..] == [Phased(Finished), Disconnect]
  {
    hide NeverFails, Drive, Waits, EachServed, Emitted, Wire, TallyAll, StackRun;
    hide Converse, Busy, Valid, ValidPrelude, Reached, Commands, FirstVerdict, KeyFor, OpeningEvents, EachServed;
    hide Sound, Direct, CommandsOf, NewOutcome, Looks, Announcement;
    var opening := OpeningEvents(radio, options);
    var session := KeyFor(key, options.mode);
    Conversation(env, session, a, prelude, moves);
    SoundMeans(env, session, prelude + moves, talk);
    SomethingSaid(env, session, a, prelude, moves);
    Attempt(env, radio, key, options, opening, talk.packets, last);
    EndedWell(env, radio, key, options);
    var l := Drive(env, radio, Start(key, options)).loop;
    SentPush(l.world.log, Disconnect);
    assert (l.world.log + [Disconnect])[|l.world.log| - 1..] == [Phased(Finished), Disconnect];
  }

  /** Left by its own result, the session is finished and has just said so. */
  lemma EndedWell(env: Ssp.Env, radio: Radio, key: MobileKey.Key, options: Options)
    requires Drive(env, radio, Start(key, options)).Left? && Drive(env, radio, Start(key, options)).exit.Ended?
    ensures var l := Drive(env, radio, Start(key, options)).loop; l.session.finished && JustFinished(l.world.log)
  {
    hide Drive, Steady, Fits;
    StartSteady(env, radio, key, options);
    PumpEnds(env, radio, key, options, Start(key, options));
  }

  lemma SoundMeans(env: Ssp.Env, key: MobileKey.Key, said: seq<Stack.Move>, talk: Talk)
    requires Sound(env, key, said, talk) && Busy(key, said)
    ensures EachServed(env, key, talk.packets)
    ensures Commands(env, key, talk.packets) == CommandsOf(said) && talk.answers == Direct(key, said).1
  {
    hide EachServed, StackRun, Busy, Commands, CommandsOf, Direct;
  }

  lemma {:induction false} SomethingSaid(
    env: Ssp.Env, key: MobileKey.Key, a: Block, prelude: seq<Stack.Move>, moves: seq<Stack.Move>)
    ensures Converse(env, key, a, prelude, moves).packets != []
  {
    hide Stack.Exchange, PacketFor, Early, Proof, Channel.Handshake;
  }
}
