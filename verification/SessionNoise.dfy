/** Noise in a v0100 exchange: packets that are not the awaited one change nothing but the trace. */
module SessionNoise {
  import opened Bytes
  import opened Session
  import opened SessionRuns
  import Ssp

  /** What the shell is asked to do, traces aside. */
  function Visible(a: seq<Action>): seq<Action> {
    if a == [] then []
    else Visible(a[..|a| - 1]) + if a[|a| - 1].Note? then [] else [a[|a| - 1]]
  }

  lemma {:induction false} VisibleJoin(a: seq<Action>, b: seq<Action>)
    ensures Visible(a + b) == Visible(a) + Visible(b)
  {
    if b == [] {
      assert a + b == a;
    } else {
      assert (a + b)[..|a + b| - 1] == a + b[..|b| - 1];
      VisibleJoin(a, b[..|b| - 1]);
    }
  }

  /** A packet the current step does not await. */
  predicate Ignored(s: Session, e: Event) {
    s.state.V0100? && e.Notification? && (e.packet == [] || e.packet[0] != ExpectedPrefix(s.state.step))
  }

  /** The events of a run without those ignored when they came. */
  function Attended(env: Ssp.Env, s: Session, events: seq<Event>): seq<Event> {
    if events == [] then []
    else
      var before, last := events[..|events| - 1], events[|events| - 1];
      Attended(env, s, before) + if Ignored(Reached(env, s, before), last) then [] else [last]
  }

  lemma IgnoredStep(env: Ssp.Env, s: Session, e: Event)
    requires Ignored(s, e)
    ensures Poll(env, s, e).0 == s && Visible(Poll(env, s, e).1) == []
  {
    if !s.finished {
      VisibleJoin([Note(Rx(e.packet))], [Note(Info(UnexpectedPacket))]);
      assert [Note(Rx(e.packet))] + [Note(Info(UnexpectedPacket))] == Poll(env, s, e).1;
    }
  }

  /** Dropping every ignored packet leaves the session and all it asks for, timers included, unchanged. */
  lemma {:induction false} IgnoredInvisible(env: Ssp.Env, s: Session, events: seq<Event>)
    ensures Reached(env, s, Attended(env, s, events)) == Reached(env, s, events)
    ensures Visible(Emitted(env, s, Attended(env, s, events))) == Visible(Emitted(env, s, events))
  {
    if events != [] {
      var before, last := events[..|events| - 1], events[|events| - 1];
      IgnoredInvisible(env, s, before);
      var now, attended := Reached(env, s, before), Attended(env, s, before);
      VisibleJoin(Emitted(env, s, before), Poll(env, now, last).1);
      if Ignored(now, last) {
        IgnoredStep(env, now, last);
        assert attended + [] == attended;
      } else {
        assert (attended + [last])[..|attended|] == attended;
        VisibleJoin(Emitted(env, s, attended), Poll(env, now, last).1);
      }
    }
  }

  /** Neither a nonce nor a result: never awaited, whatever the step. */
  predicate Noise(e: Event) {
    e.Notification? && (e.packet == [] || (e.packet[0] != 0x03 && e.packet[0] != 0x05))
  }

  function Quiet(events: seq<Event>): seq<Event> {
    if events == [] then []
    else Quiet(events[..|events| - 1]) + if Noise(events[|events| - 1]) then [] else [events[|events| - 1]]
  }

  lemma {:induction false} StaysV0100(env: Ssp.Env, s: Session, events: seq<Event>)
    requires s.state.V0100?
    ensures Reached(env, s, events).state.V0100?
  {
    if events != [] {
      StaysV0100(env, s, events[..|events| - 1]);
    }
  }

  /** Noise anywhere in a v0100 exchange is invisible. */
  lemma {:induction false} NoiseInvisible(env: Ssp.Env, s: Session, events: seq<Event>)
    requires s.state.V0100?
    ensures Reached(env, s, Quiet(events)) == Reached(env, s, events)
    ensures Visible(Emitted(env, s, Quiet(events))) == Visible(Emitted(env, s, events))
  {
    if events != [] {
      var before, last := events[..|events| - 1], events[|events| - 1];
      NoiseInvisible(env, s, before);
      StaysV0100(env, s, before);
      var now, quiet := Reached(env, s, before), Quiet(before);
      VisibleJoin(Emitted(env, s, before), Poll(env, now, last).1);
      if Noise(last) {
        IgnoredStep(env, now, last);
        assert quiet + [] == quiet;
      } else {
        assert (quiet + [last])[..|quiet|] == quiet;
        VisibleJoin(Emitted(env, s, quiet), Poll(env, now, last).1);
      }
    }
  }

  /** Two v0100 exchanges that differ only in noise ask for the same things in the same order. */
  lemma OnlyNoiseDiffers(env: Ssp.Env, s: Session, events: seq<Event>, others: seq<Event>)
    requires s.state.V0100? && Quiet(events) == Quiet(others)
    ensures Reached(env, s, events) == Reached(env, s, others)
    ensures Visible(Emitted(env, s, events)) == Visible(Emitted(env, s, others))
  {
    NoiseInvisible(env, s, events);
    NoiseInvisible(env, s, others);
  }
}
