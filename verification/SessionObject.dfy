/** The session of internal/ptysession/session.go as an object: the scanner, the replay buffer and
    the set of attached clients, each updated in place under the session lock. */
module SessionObjects {
  import opened Collections
  import opened Decimal
  import opened Modes
  import opened ModeTracking
  import opened Replay
  import opened Attachments
  import opened Sessions

  class Session {
    const ring: Ring
    const modes: ModeTracker
    var attachments: set<Attachment>
    var exited: bool
    var exitCode: int
    var lastOutput: int

    ghost predicate Valid()
      reads this, ring
    {
      ring.Valid()
    }

    /** The object is the session of `w`, whose clients are the attachments themselves. */
    ghost predicate Matches(w: World<Attachment>)
      reads this, ring, modes, w.clients.Keys
    {
      && modes.View() == w.tracker
      && ring.chunks == w.chunks && ring.limit == w.ringLimit
      && attachments == w.attached && attachments <= w.clients.Keys
      && exited == w.exited
      && (forall a :: a in w.clients ==> a.View() == w.clients[a].queue)
    }

    constructor (ringBytes: int, now: int)
      ensures Valid() && fresh(ring) && fresh(modes)
      ensures modes.View() == FRESH && ring.chunks == [] && attachments == {} && !exited && lastOutput == now
      ensures ring.limit == (if ringBytes <= 0 then DEFAULT_RING_BYTES else ringBytes)
      ensures Matches(Init(ring.limit))
    {
      ring := new Ring(ringBytes);
      modes := new ModeTracker();
      attachments := {};
      exited, exitCode, lastOutput := false, 0, now;
    }

    /** The critical section of readLoop for one read of the PTY. */
    method Fanout(buf: seq<byte>, now: int, ghost w: World<Attachment>)
      requires Valid()
      modifies this`lastOutput, ring, modes, attachments
      ensures Valid() && lastOutput == now && ring.limit == old(ring.limit)
      ensures modes.View() == Feed(old(modes.View()), buf, AtMost(MAX_TRACKED_MODES))
      ensures ring.chunks == Evict(old(ring.chunks) + [Chunk(buf, old(modes.View()).state.Ground?)], ring.limit)
      ensures forall a :: a in attachments ==> a.View() == Pushed(old(a.View()), buf)
      ensures old(Matches(w)) && !exited && buf != [] ==> Matches(Sessions.Step(w, Output(buf)))
    {
      var clean := modes.AtBoundary();
      modes.Feed(buf);
      ring.Push(buf, clean);
      lastOutput := now;
      PushAll(buf);
    }

    /** The loop over the attached clients. */
    method PushAll(buf: seq<byte>)
      modifies attachments
      ensures forall a :: a in attachments ==> a.View() == Pushed(old(a.View()), buf)
    {
      var rest := attachments;
      while rest != {}
        invariant rest <= attachments
        invariant forall a :: a in rest ==> a.View() == old(a.View())
        invariant forall a :: a in attachments - rest ==> a.View() == Pushed(old(a.View()), buf)
        modifies attachments
      {
        ghost var some := AMember(rest);
        var a :| a in rest;
        a.Push(buf);
        rest := rest - {a};
      }
    }

    method Attach(readOnly: bool, ghost w: World<Attachment>) returns (a: Option<Attachment>)
      requires Valid()
      modifies this`attachments
      ensures Valid() && a.None? == exited
      ensures a.None? ==> attachments == old(attachments)
      ensures a.Some? ==> fresh(a.value) && attachments == old(attachments) + {a.value}
      ensures a.Some? ==> a.value.View() == Seeded(modes.View(), ring.chunks) && a.value.readOnly == readOnly
      ensures old(Matches(w)) ==> Matches(if a.Some? then Sessions.Step(w, Event.Attach(a.value)) else w)
    {
      if exited {
        return None;
      }
      var c := SeededAttachment(readOnly);
      attachments := attachments + {c};
      return Some(c);
    }

    /** A new client's queue with the prelude and the replay in it. */
    method SeededAttachment(readOnly: bool) returns (c: Attachment)
      requires Valid()
      ensures fresh(c) && c.View() == Seeded(modes.View(), ring.chunks) && c.readOnly == readOnly
    {
      c := new Attachment(readOnly, DEFAULT_QUEUE_BYTES);
      var prelude := modes.Prelude();
      if |prelude| > 0 {
        c.Push(prelude);
      }
      var snap := ring.SnapshotBytes();
      if |snap| > 0 {
        c.Push(snap);
      }
    }

    method Detach(a: Attachment, ghost w: World<Attachment>)
      modifies this`attachments, a
      ensures attachments == old(attachments) - {a}
      ensures a.View() == Closed(old(a.View()), Detached)
      ensures old(Matches(w)) ==> Matches(Sessions.Step(Sessions.Step(w, Deregister(a)), CloseDetached(a)))
    {
      attachments := attachments - {a};
      a.Close(Detached);
    }

    /** The critical section of finish. */
    method Finish(code: int, ghost w: World<Attachment>)
      modifies this`attachments, this`exited, this`exitCode, attachments
      ensures exited && exitCode == code && attachments == {}
      ensures forall a :: a in old(attachments) ==> a.View() == Closed(old(a.View()), SessionEnded)
      ensures old(Matches(w)) && !old(exited) ==> Matches(Sessions.Step(w, Event.Finish))
    {
      exited := true;
      exitCode := code;
      var rest := attachments;
      while rest != {}
        invariant rest <= attachments == old(attachments)
        invariant forall a :: a in rest ==> a.View() == old(a.View())
        invariant forall a :: a in attachments - rest ==> a.View() == Closed(old(a.View()), SessionEnded)
        modifies attachments
      {
        ghost var some := AMember(rest);
        var a :| a in rest;
        a.Close(SessionEnded);
        rest := rest - {a};
      }
      attachments := {};
    }
  }
}
