/**
  The link's own code, host and device, proved against the step functions the
  protocol is verified with: one frame through each receiver, one call of send
  with everything that can wake it, one message through a transmit worker, and
  a whole session reset.
  */
module LinkCode {
  import opened Frames
  import opened LinkRounds
  import H = LinkHost
  import D = LinkDevice

  // -------------------------------------------------------------- host: Link

  // How send comes back: acknowledged, given up before queueing, or with the
  // link closed; Blocked while it still waits for something to happen.
  datatype SendResult = Acked(cancelled: bool) | NotQueued | LinkClosed | Blocked(sending: H.Sending)

  // The rounds of a call of send, and the one that ends it, up to its last event.
  predicate Rounds(rs: seq<Round>, last: Round, n: u32, maxRetries: nat) {
    && Survived(rs, n, maxRetries) && Passes(last, n) && (rs == [] ==> Cancels(last.before) == 0)
    && CancelsOf(rs) + Cancels(last.before) + Cancels(last.after) <= 1
  }

  // Its frame is acknowledged in the last round.
  predicate AckComes(events: seq<H.Event>, rs: seq<Round>, last: Round, rest: seq<H.Event>, n: u32, maxRetries: nat) {
    Rounds(rs, last, n, maxRetries) && events == Told(rs) + (Opening(last) + ([H.AckIs(n)] + rest))
  }

  // The last round ends in one timeout more than there are retries.
  predicate RetriesRunOut(events: seq<H.Event>, rs: seq<Round>, last: Round, rest: seq<H.Event>, n: u32,
                          maxRetries: nat)
  {
    && Rounds(rs, last, n, maxRetries) && Used(rs, n) == maxRetries && H.BusyIs(n) !in last.after
    && events == Told(rs) + (Opening(last) + ([H.TimerFired] + rest))
  }

  // A kind the device sends on the channel.
  predicate Ours(f: Frame) {
    if IsRpcChannel(f.channel) then f.kind == RPC_REPLY
    else f.kind == OPENED || f.kind == DATA || f.kind == CLOSE || f.kind == ERROR
  }

  // What one frame makes of the host, told by the frame's own fields.
  predicate Answers(h: H.Host, t: H.Host, f: Frame)
    requires h.Wide() && f.channel < CHANNELS
  {
    var ch, k := h.channels[f.channel], f.channel;
    var ack, busy := Frame(ACK, h.session, k, f.sequence, []), Frame(BUSY, h.session, k, f.sequence, []);
    if f.session != h.session then t == h
    else if Ours(f) then
      // taken before: acknowledged again, and nothing else changes
      (1 <= f.sequence < ch.expected ==> t == h.(control := Some(ack)))
      // the next one: handed on and acknowledged, or refused for want of room
      && (1 <= f.sequence == ch.expected < 0xFFFF_FFFF ==>
            var next := ch.(expected := f.sequence + 1);
            t == if IsRpcChannel(k) then
                   if |h.replies| < 2
                   then h.(control := Some(ack), replies := h.replies + [f], channels := h.channels[k := next])
                   else h.(control := Some(busy))
                 else if ch.conn.None? then h.(control := Some(ack), channels := h.channels[k := next])
                 else if |ch.conn.value.incoming| >= 8 then h.(control := Some(busy))
                 else
                   var conn := H.Conn(ch.conn.value.incoming + [f], ch.conn.value.remoteClosed || f.kind == CLOSE);
                   h.(control := Some(ack), channels := h.channels[k := next.(conn := Some(conn))]))
      && (f.sequence > ch.expected || f.sequence == 0 ==> t == h)
    else if f.kind == ACK then
      t == if |ch.ack| < 2 then h.(channels := h.channels[k := ch.(ack := ch.ack + [f.sequence])]) else h
    else if f.kind == BUSY then
      t == if |ch.busy| < 2 then h.(channels := h.channels[k := ch.(busy := ch.busy + [f.sequence])]) else h
    else if f.kind == HELLO_ACK && k == 0 && f.sequence == 0 then t == h.(hello := true)
    else t == h
  }

  lemma AcceptedAnswers(h: H.Host, f: Frame)
    requires h.Wide() && f.channel < CHANNELS
    ensures Answers(h, H.Accepted(h, f), f)
  {
    var ch := h.channels[f.channel];
    assert h.channels[f.channel := ch] == h.channels;
  }

  class Link {
    const session: u32
    var closed: bool
    var ready: bool
    var hello: bool
    var high: seq<Frame>
    var control: Option<Frame>
    var replies: seq<Frame>
    var channels: seq<H.Channel>

    ghost function View(): H.Host
      reads this
    {
      H.Host(session, closed, ready, hello, high, control, replies, channels)
    }

    constructor (session: u32)
      ensures View() == H.NewHost(session)
    {
      this.session := session;
      closed, ready, hello := false, false, false;
      high, control, replies := [], None, [];
      channels := seq(CHANNELS, _ => H.FRESH_CHANNEL);
    }

    method Accept(f: Frame)
      requires |channels| == CHANNELS && f.channel < CHANNELS
      modifies this
      ensures View() == H.Accepted(old(View()), f)
      ensures Answers(old(View()), View(), f)
    {
      AcceptedAnswers(View(), f);
      hide Answers;
      if f.session != session {
        return;
      }
      if f.kind == ABORT {
        return;
      }
      if f.kind == HELLO_ACK && f.channel == 0 && f.sequence == 0 {
        hello := true;
        return;
      }
      var c := f.channel;
      if f.kind == ACK {
        if |channels[c].ack| < H.ACK_QUEUE {
          channels := channels[c := channels[c].(ack := channels[c].ack + [f.sequence])];
        }
        assert channels == old(channels)[c := old(channels)[c].(ack := channels[c].ack)];
        return;
      }
      if f.kind == BUSY {
        if |channels[c].busy| < H.ACK_QUEUE {
          channels := channels[c := channels[c].(busy := channels[c].busy + [f.sequence])];
        }
        assert channels == old(channels)[c := old(channels)[c].(busy := channels[c].busy)];
        return;
      }
      if f.kind < OPEN || f.sequence == 0 {
        return;
      }
      if (IsRpcChannel(c) && f.kind != RPC_REPLY) ||
         (!IsRpcChannel(c) && f.kind != OPENED && f.kind != DATA && f.kind != CLOSE && f.kind != ERROR) {
        return;
      }
      AcceptSequenced(f);
    }

    // accept, from the check of the number on.
    method AcceptSequenced(f: Frame)
      requires |channels| == CHANNELS && f.channel < CHANNELS && f.session == session
      requires f.kind >= OPEN && f.kind != ACK && f.kind != BUSY && f.kind != ABORT && f.sequence != 0 && H.RightKind(f)
      modifies this
      ensures View() == H.Accepted(old(View()), f)
    {
      var c := f.channel;
      var accepted := false;
      if f.sequence < channels[c].expected {
        accepted := true;
      } else if f.sequence == channels[c].expected {
        accepted := Offer(f);
        if accepted {
          channels := channels[c := channels[c].(expected := Succ(channels[c].expected))];
          assert channels == old(channels)[c := channels[c]];
          if channels[c].expected == 0 {
            closed := true;
            return;
          }
        }
      }
      if accepted {
        control := Some(H.ControlFrame(ACK, f));
      } else if f.sequence == channels[c].expected {
        control := Some(H.ControlFrame(BUSY, f));
      }
    }

    // Hands the frame to the waiting RPC or to the stream's bounded queue.
    method Offer(f: Frame) returns (accepted: bool)
      requires |channels| == CHANNELS && f.channel < CHANNELS
      modifies this`replies, this`channels
      ensures |channels| == CHANNELS
      ensures var c := f.channel; var was := old(channels[c]);
              accepted == (if IsRpcChannel(c) then |old(replies)| < H.REPLY_QUEUE
                           else was.conn.None? || |was.conn.value.incoming| < H.CONN_QUEUE)
              && replies == (if IsRpcChannel(c) && accepted then old(replies) + [f] else old(replies))
              && channels == old(channels)[c := was.(conn := if IsDataChannel(c) && accepted
                                                             then H.Deliver(was.conn, f) else was.conn)]
    {
      var c := f.channel;
      accepted := false;
      if IsRpcChannel(c) {
        if |replies| < H.REPLY_QUEUE {
          replies := replies + [f];
          accepted := true;
        }
      } else {
        var conn := channels[c].conn;
        if conn.None? {
          accepted := true;
        } else if |conn.value.incoming| < H.CONN_QUEUE {
          conn := Some(H.Conn(conn.value.incoming + [f], conn.value.remoteClosed || f.kind == CLOSE));
          channels := channels[c := channels[c].(conn := conn)];
          accepted := true;
        }
      }
    }

    // One call of send past the gate.  The events are what its selects return;
    // transmissions counts how often the frame entered the outgoing queue.
    method Send(id: byte, kind: byte, payload: seq<byte>, events: seq<H.Event>, maxRetries: nat)
      returns (result: SendResult, transmissions: nat)
      requires |channels| == CHANNELS && id < CHANNELS && !closed
      modifies this`closed, this`channels
      ensures |channels| == CHANNELS
      ensures var seq_ := old(channels[id].sequence);
              var f := Frame(kind, session, id, seq_, payload);
              var course := Go(H.Enqueueing(f, 0, false, false), seq_, events, maxRetries);
              closed == course.end.closes && transmissions == course.transmissions
              && channels == old(channels)[id := old(channels[id]).(sequence := course.end.sequence)]
              && (result.Blocked? ==> course.end.sending == result.sending && !result.sending.Idle?)
      // After any rounds within the budget, which a BUSY restores, an ACK
      // completes the send, and one timeout more than that closes the link.
      ensures forall rs, last, rest | AckComes(events, rs, last, rest, old(channels[id].sequence), maxRetries) ::
                transmissions == |rs| + 1
                && if Succ(old(channels[id].sequence)) == 0 then result.LinkClosed? else result.Acked?
      ensures forall rs, last, rest | RetriesRunOut(events, rs, last, rest, old(channels[id].sequence), maxRetries) ::
                transmissions == |rs| + 1 && result.LinkClosed?
      // There is no other way to be acknowledged, and none but a second
      // cancellation for the link to be closed.
      ensures result.Acked? ==>
                exists rs, last, rest :: AckComes(events, rs, last, rest, old(channels[id].sequence), maxRetries)
      ensures result.LinkClosed? ==>
                H.Cancelled in events
                || (exists rs, last, rest ::
                      RetriesRunOut(events, rs, last, rest, old(channels[id].sequence), maxRetries))
                || (Succ(old(channels[id].sequence)) == 0 && H.AckIs(old(channels[id].sequence)) in events)
      // A number that was queued is acknowledged, or the link is closed.
      ensures result.Acked? ==>
                !closed && channels[id].sequence == Succ(old(channels[id].sequence))
                && H.AckIs(old(channels[id].sequence)) in events && (result.cancelled ==> H.Cancelled in events)
      ensures result.NotQueued? ==> !closed && transmissions == 0 && channels == old(channels) && H.Cancelled in events
      ensures result.LinkClosed? ==> closed
      ensures result.Blocked? ==> !closed && channels == old(channels)
      ensures H.BusyIs(old(channels[id].sequence)) !in events ==> transmissions <= maxRetries + 1
    {
      var seq_ := channels[id].sequence;
      var f := Frame(kind, session, id, seq_, payload);
      LiteralCourses(f, events, maxRetries);
      var wake, sending;
      wake, transmissions, sending := Attempts(f, events, maxRetries);
      assert channels == channels[id := channels[id].(sequence := seq_)];
      hide Go, AckComes, RetriesRunOut;
      match wake {
        case GaveUp => return NotQueued, transmissions;
        case Starved => return Blocked(sending), transmissions;
        case Woken =>
          channels := channels[id := channels[id].(sequence := Succ(seq_))];
          if channels[id].sequence == 0 {
            closed := true;
            return LinkClosed, transmissions;
          }
          return Acked(sending.cancelled), transmissions;
        case _ =>
          closed := true;
          return LinkClosed, transmissions;
      }
    }
  }

  // One attempt of send: into the queue, then on to the ACK or the timeout.
  method Attempt(f: Frame, attempt0: int, queued: bool, cancelled0: bool, events: seq<H.Event>, e0: nat,
      maxRetries: nat, ghost rs0: seq<Round>)
    returns (e: nat, attempt: int, cancelled: bool, entered: bool, wake: Wake, ghost rs: seq<Round>)
    requires e0 <= |events| && 0 <= attempt0 <= maxRetries && queued == (rs0 != [])
    requires Stands(rs0, f.sequence, attempt0, cancelled0, events, e0, maxRetries)
    ensures e0 <= e <= |events| && -1 <= attempt <= maxRetries
    ensures (wake.GaveUp? ==> !queued && !entered) && (wake.Woken? || wake.TimedOut? ==> entered && e0 < e)
    ensures wake.Woken? ==>
              H.AckIs(f.sequence) in events
              && exists front, last, rest :: AckComes(events, front, last, rest, f.sequence, maxRetries)
    ensures wake.TimedOut? ==>
              Stands(rs, f.sequence, attempt + 1, cancelled, events, e, maxRetries) && |rs| == |rs0| + 1
    ensures wake.GaveUp? || wake.Broken? ==> H.Cancelled in events
    ensures cancelled ==> cancelled0 || H.Cancelled in events
    ensures H.BusyIs(f.sequence) !in events ==> attempt == attempt0
    ensures Go(H.Enqueueing(f, attempt0, queued, cancelled0), f.sequence, events[e0..], maxRetries)
         == More(match wake
                 case Woken => Course(H.Reaction(H.Idle, Succ(f.sequence), Succ(f.sequence) == 0), 0)
                 case GaveUp => Course(H.Reaction(H.Idle, f.sequence, false), 0)
                 case Broken => Course(H.Reaction(H.Idle, f.sequence, true), 0)
                 case Starved =>
                   Course(H.Reaction(Sending(f, attempt, queued, cancelled, entered), f.sequence, false), 0)
                 case TimedOut =>
                   if attempt + 1 <= maxRetries
                   then Go(H.Enqueueing(f, attempt + 1, true, cancelled), f.sequence, events[e..], maxRetries)
                   else Course(H.Reaction(H.Idle, f.sequence, true), 0),
                 if entered then 1 else 0)
  {
    hide Go, AckComes, RetriesRunOut, Stands, InLine, Awaited;
    attempt, entered, rs := attempt0, false, rs0;
    e, cancelled, wake := AwaitQueue(f, attempt0, queued, cancelled0, events, e0, maxRetries);
    if !wake.Starved? { assert events[e - 1] in events; }
    if !wake.Woken? { return; }
    entered := true;
    ghost var q, cancelled1 := e - 1, cancelled;
    e, attempt, cancelled, wake := AwaitAck(f, attempt0, cancelled, events, e, maxRetries);
    if !wake.Starved? { assert events[e - 1] in events; }
    if wake.Woken? {
      AckIsRead(rs, f.sequence, attempt0, attempt, cancelled0, cancelled1, cancelled, events, e0, q, e - 1, maxRetries);
    } else if wake.TimedOut? {
      TimeoutIsRead(rs, f.sequence, attempt0, attempt, cancelled0, cancelled1, cancelled, events, e0, q, e - 1,
                    maxRetries);
      rs := rs + [Read(events, e0, q, e - 1)];
    }
  }

  // Where a call of send waits.
  function Sending(f: Frame, attempt: int, queued: bool, cancelled: bool, entered: bool): H.Sending {
    if entered then H.Waiting(f, attempt, cancelled) else H.Enqueueing(f, attempt, queued, cancelled)
  }

  // The attempts of one call of send; sending is where they leave it.
  method Attempts(f: Frame, events: seq<H.Event>, maxRetries: nat)
    returns (wake: Wake, transmissions: nat, sending: H.Sending)
    ensures var start := Go(H.Enqueueing(f, 0, false, false), f.sequence, events, maxRetries);
            match wake
            case Woken => start == Course(H.Reaction(H.Idle, Succ(f.sequence), Succ(f.sequence) == 0), transmissions)
            case GaveUp => start == Course(H.Reaction(H.Idle, f.sequence, false), transmissions) && transmissions == 0
            case Starved => start == Course(H.Reaction(sending, f.sequence, false), transmissions)
            case _ => start == Course(H.Reaction(H.Idle, f.sequence, true), transmissions)
    ensures wake.Woken? ==>
              H.AckIs(f.sequence) in events
              && exists rs, last, rest :: AckComes(events, rs, last, rest, f.sequence, maxRetries)
    ensures wake.TimedOut? ==>
              exists rs, last, rest :: RetriesRunOut(events, rs, last, rest, f.sequence, maxRetries)
    ensures wake.GaveUp? || wake.Broken? ==> H.Cancelled in events
    ensures !sending.Idle? && (sending.cancelled ==> H.Cancelled in events)
    ensures H.BusyIs(f.sequence) !in events ==> transmissions <= maxRetries + 1
  {
    var attempt, queued, cancelled, e, entered := 0, false, false, 0, false;
    ghost var rs: seq<Round> := [];
    transmissions := 0;
    assert events[0..] == events && events[..0] == [];
    assert Stands([], f.sequence, 0, false, events, 0, maxRetries);
    hide Go, AckComes, RetriesRunOut, Stands;
    while attempt <= maxRetries
      invariant 0 <= attempt <= maxRetries + 1 && 0 <= e <= |events|
      invariant queued == (rs != []) && |rs| == transmissions && (cancelled ==> H.Cancelled in events)
      invariant Stands(rs, f.sequence, attempt, cancelled, events, e, maxRetries)
      invariant Go(H.Enqueueing(f, 0, false, false), f.sequence, events, maxRetries)
             == if attempt > maxRetries then Course(H.Reaction(H.Idle, f.sequence, true), transmissions)
                else More(Go(H.Enqueueing(f, attempt, queued, cancelled), f.sequence, events[e..], maxRetries),
                          transmissions)
      invariant H.BusyIs(f.sequence) !in events ==> transmissions == attempt
      decreases |events| - e
    {
      e, attempt, cancelled, entered, wake, rs := Attempt(f, attempt, queued, cancelled, events, e, maxRetries, rs);
      if entered { transmissions := transmissions + 1; }
      if !wake.TimedOut? { return wake, transmissions, Sending(f, attempt, queued, cancelled, entered); }
      queued := true;
      attempt := attempt + 1;
    }
    RunsOut(rs, f.sequence, attempt, cancelled, events, e, maxRetries);
    return TimedOut, transmissions, H.Waiting(f, attempt, cancelled);
  }

  lemma RunsOut(rs: seq<Round>, n: u32, attempt: int, cancelled: bool, events: seq<H.Event>, e: nat, maxRetries: nat)
    requires e <= |events| && attempt > maxRetries && Stands(rs, n, attempt, cancelled, events, e, maxRetries)
    ensures exists rs, last, rest :: RetriesRunOut(events, rs, last, rest, n, maxRetries)
  {
  }

  lemma LiteralCourses(f: Frame, events: seq<H.Event>, maxRetries: nat)
    ensures forall rs, last, rest | AckComes(events, rs, last, rest, f.sequence, maxRetries) ::
              Go(H.Enqueueing(f, 0, false, false), f.sequence, events, maxRetries)
              == Course(H.Reaction(H.Idle, Succ(f.sequence), Succ(f.sequence) == 0), |rs| + 1)
    ensures forall rs, last, rest | RetriesRunOut(events, rs, last, rest, f.sequence, maxRetries) ::
              Go(H.Enqueueing(f, 0, false, false), f.sequence, events, maxRetries)
              == Course(H.Reaction(H.Idle, f.sequence, true), |rs| + 1)
  {
    hide Go;
    forall rs, last, rest | AckComes(events, rs, last, rest, f.sequence, maxRetries)
      ensures Go(H.Enqueueing(f, 0, false, false), f.sequence, events, maxRetries)
           == Course(H.Reaction(H.Idle, Succ(f.sequence), Succ(f.sequence) == 0), |rs| + 1)
    {
      AckEndsRounds(f, rs, last, rest, maxRetries);
    }
    forall rs, last, rest | RetriesRunOut(events, rs, last, rest, f.sequence, maxRetries)
      ensures Go(H.Enqueueing(f, 0, false, false), f.sequence, events, maxRetries)
           == Course(H.Reaction(H.Idle, f.sequence, true), |rs| + 1)
    {
      TimeoutsEndRounds(f, rs, last, rest, maxRetries);
    }
  }

  // --------------------------------------------------- host: the waits of send

  // How one of send's two waits ends.
  datatype Wake = Woken | TimedOut | GaveUp | Broken | Starved

  // Events e0 up to e came while the frame waited for the outgoing queue.
  predicate InLine(events: seq<H.Event>, e0: nat, e: nat, queued: bool, cancelled0: bool, cancelled: bool)
    requires e0 <= e <= |events|
  {
    var n := Cancels(events[e0..e]);
    && (forall i | e0 <= i < e :: !events[i].Queued?)
    && n + (if cancelled0 then 1 else 0) <= 1 && cancelled == (cancelled0 || n > 0) && (!queued ==> n == 0)
  }

  // Events e0 up to e came while the ACK of number n was awaited.
  predicate Awaited(events: seq<H.Event>, e0: nat, e: nat, n: u32,
                    attempt0: int, attempt: int, cancelled0: bool, cancelled: bool)
    requires e0 <= e <= |events|
  {
    var cancels := Cancels(events[e0..e]);
    && (forall i | e0 <= i < e :: !events[i].TimerFired? && events[i] != H.AckIs(n))
    && attempt == (if H.BusyIs(n) in events[e0..e] then -1 else attempt0)
    && cancels + (if cancelled0 then 1 else 0) <= 1 && cancelled == (cancelled0 || cancels > 0)
  }

  // The enqueue, and once more under the cleanup context: it ends when the
  // queue is free, or at a cancellation too many.
  method AwaitQueue(f: Frame, attempt: int, queued: bool, cancelled0: bool, events: seq<H.Event>, e0: nat,
      maxRetries: nat)
    returns (e: nat, cancelled: bool, wake: Wake)
    requires e0 <= |events|
    ensures e0 <= e <= |events| && !wake.TimedOut? && (wake.Starved? ==> e == |events|)
    ensures !wake.Starved? ==>
              e0 < e && (if wake.Woken? then events[e - 1].Queued? else events[e - 1].Cancelled?)
              && InLine(events, e0, e - 1, queued, cancelled0, cancelled)
    ensures wake.Starved? ==> InLine(events, e0, e, queued, cancelled0, cancelled)
    ensures (wake.GaveUp? ==> !queued) && (wake.Broken? ==> queued && cancelled)
    ensures cancelled && !cancelled0 ==> H.Cancelled in events
    ensures var start := Go(H.Enqueueing(f, attempt, queued, cancelled0), f.sequence, events[e0..], maxRetries);
            match wake
            case Woken => start == More(Go(H.Waiting(f, attempt, cancelled), f.sequence, events[e..], maxRetries), 1)
            case GaveUp => start == Course(H.Reaction(H.Idle, f.sequence, false), 0)
            case Broken => start == Course(H.Reaction(H.Idle, f.sequence, true), 0)
            case _ => start == Course(H.Reaction(H.Enqueueing(f, attempt, queued, cancelled), f.sequence, false), 0)
  {
    e, cancelled := e0, cancelled0;
    hide Go;
    while e < |events|
      invariant e0 <= e <= |events| && InLine(events, e0, e, queued, cancelled0, cancelled)
      invariant cancelled && !cancelled0 ==> H.Cancelled in events
      invariant Go(H.Enqueueing(f, attempt, queued, cancelled0), f.sequence, events[e0..], maxRetries)
             == Go(H.Enqueueing(f, attempt, queued, cancelled), f.sequence, events[e..], maxRetries)
    {
      var event := events[e];
      assert events[e..] == [event] + events[e + 1..];
      OneEvent(H.Enqueueing(f, attempt, queued, cancelled), f.sequence, event, events[e + 1..], maxRetries);
      CancelsGrow(events, e0, e);
      e := e + 1;
      if event.Queued? {
        return e, cancelled, Woken;
      }
      if event.Cancelled? {
        if !queued {
          IdleEnds(f.sequence, events[e..], maxRetries);
          return e, cancelled, GaveUp;
        }
        if cancelled {
          return e, cancelled, Broken;
        }
        cancelled := true;
      }
    }
    NothingMore(H.Enqueueing(f, attempt, queued, cancelled), f.sequence, maxRetries);
    return e, cancelled, Starved;
  }

  lemma NothingMore(sending: H.Sending, sequence: u32, maxRetries: nat)
    ensures Go(sending, sequence, [], maxRetries) == Course(H.Reaction(sending, sequence, false), 0)
  {
  }

  // The wait for the matching ACK; BUSY restores the whole retry budget.
  method AwaitAck(f: Frame, attempt0: int, cancelled0: bool, events: seq<H.Event>, e0: nat, maxRetries: nat)
    returns (e: nat, attempt: int, cancelled: bool, wake: Wake)
    requires e0 <= |events| && 0 <= attempt0 <= maxRetries
    ensures e0 <= e <= |events| && -1 <= attempt <= maxRetries && !wake.GaveUp? && (wake.Starved? ==> e == |events|)
    ensures !wake.Starved? ==>
              e0 < e && Awaited(events, e0, e - 1, f.sequence, attempt0, attempt, cancelled0, cancelled)
              && match wake
                 case Woken => events[e - 1] == H.AckIs(f.sequence)
                 case TimedOut => events[e - 1].TimerFired?
                 case _ => events[e - 1].Cancelled? && cancelled
    ensures wake.Starved? ==> Awaited(events, e0, e, f.sequence, attempt0, attempt, cancelled0, cancelled)
    ensures H.BusyIs(f.sequence) !in events ==> attempt == attempt0
    ensures cancelled && !cancelled0 ==> H.Cancelled in events
    ensures var start := Go(H.Waiting(f, attempt0, cancelled0), f.sequence, events[e0..], maxRetries);
            match wake
            case Woken => start == Course(H.Reaction(H.Idle, Succ(f.sequence), Succ(f.sequence) == 0), 0)
            case TimedOut =>
              if attempt + 1 <= maxRetries
              then start == Go(H.Enqueueing(f, attempt + 1, true, cancelled), f.sequence, events[e..], maxRetries)
              else start == Course(H.Reaction(H.Idle, f.sequence, true), 0)
            case Broken => start == Course(H.Reaction(H.Idle, f.sequence, true), 0)
            case _ => start == Course(H.Reaction(H.Waiting(f, attempt, cancelled), f.sequence, false), 0)
  {
    e, attempt, cancelled := e0, attempt0, cancelled0;
    hide Go;
    while e < |events|
      invariant e0 <= e <= |events| && -1 <= attempt <= maxRetries
      invariant Awaited(events, e0, e, f.sequence, attempt0, attempt, cancelled0, cancelled)
      invariant H.BusyIs(f.sequence) !in events ==> attempt == attempt0
      invariant cancelled && !cancelled0 ==> H.Cancelled in events
      invariant Go(H.Waiting(f, attempt0, cancelled0), f.sequence, events[e0..], maxRetries)
             == Go(H.Waiting(f, attempt, cancelled), f.sequence, events[e..], maxRetries)
    {
      var event := events[e];
      assert events[e..] == [event] + events[e + 1..];
      OneEvent(H.Waiting(f, attempt, cancelled), f.sequence, event, events[e + 1..], maxRetries);
      CancelsGrow(events, e0, e);
      assert events[e0..e + 1] == events[e0..e] + [event];
      e := e + 1;
      if event.AckIs? && event.seq_ == f.sequence {
        IdleEnds(Succ(f.sequence), events[e..], maxRetries);
        return e, attempt, cancelled, Woken;
      } else if event.BusyIs? && event.seq_ == f.sequence {
        attempt := -1;
      } else if event.TimerFired? {
        return e, attempt, cancelled, TimedOut;
      } else if event.Cancelled? {
        if cancelled {
          return e, attempt, cancelled, Broken;
        }
        cancelled := true;
      }
    }
    NothingMore(H.Waiting(f, attempt, cancelled), f.sequence, maxRetries);
    return e, attempt, cancelled, Starved;
  }

  // ------------------------------------------------- host: the rounds behind send

  // Where the loop of send stands after e events: behind rounds it survived, or
  // at the end of its retries.
  ghost predicate Stands(rs: seq<Round>, n: u32, attempt: int, cancelled: bool, events: seq<H.Event>, e: nat,
                         maxRetries: nat)
    requires e <= |events|
  {
    if attempt <= maxRetries then
      Survived(rs, n, maxRetries) && Used(rs, n) == attempt && events[..e] == Told(rs)
      && CancelsOf(rs) == if cancelled then 1 else 0
    else exists front, last, rest :: RetriesRunOut(events, front, last, rest, n, maxRetries)
  }

  lemma RoundFits(rs: seq<Round>, n: u32, attempt0: int, attempt: int, cancelled0: bool, cancelled1: bool,
                  cancelled: bool, events: seq<H.Event>, e0: nat, q: nat, t: nat, maxRetries: nat)
    requires e0 <= q < t < |events| && attempt0 <= maxRetries && events[q].Queued?
    requires Stands(rs, n, attempt0, cancelled0, events, e0, maxRetries)
    requires InLine(events, e0, q, rs != [], cancelled0, cancelled1)
    requires Awaited(events, q + 1, t, n, attempt0, attempt, cancelled1, cancelled)
    ensures var r := Read(events, e0, q, t);
            Rounds(rs, r, n, maxRetries) && (attempt == if H.BusyIs(n) in r.after then -1 else Used(rs, n))
            && CancelsOf(rs) + (Cancels(r.before) + Cancels(r.after)) == if cancelled then 1 else 0
  {
    hide Cancels, CancelsOf, Survived, Used, Told;
  }

  lemma AckIsRead(rs: seq<Round>, n: u32, attempt0: int, attempt: int, cancelled0: bool, cancelled1: bool,
                  cancelled: bool, events: seq<H.Event>, e0: nat, q: nat, t: nat, maxRetries: nat)
    requires e0 <= q < t < |events| && attempt0 <= maxRetries && events[q].Queued? && events[t] == H.AckIs(n)
    requires Stands(rs, n, attempt0, cancelled0, events, e0, maxRetries)
    requires InLine(events, e0, q, rs != [], cancelled0, cancelled1)
    requires Awaited(events, q + 1, t, n, attempt0, attempt, cancelled1, cancelled)
    ensures exists rs, last, rest :: AckComes(events, rs, last, rest, n, maxRetries)
  {
    RoundFits(rs, n, attempt0, attempt, cancelled0, cancelled1, cancelled, events, e0, q, t, maxRetries);
    hide Rounds, InLine, Awaited, Survived, Used, CancelsOf, Cancels, Told;
    RoundIsRead(events, e0, q, t);
    assert AckComes(events, rs, Read(events, e0, q, t), events[t + 1..], n, maxRetries);
  }

  lemma LastRoundIsRead(rs: seq<Round>, r: Round, n: u32, events: seq<H.Event>, t: nat, maxRetries: nat)
    requires t < |events| && Rounds(rs, r, n, maxRetries) && Used(rs, n) == maxRetries && H.BusyIs(n) !in r.after
    requires events[..t + 1] == Told(rs) + (Opening(r) + [H.TimerFired])
    ensures RetriesRunOut(events, rs, r, events[t + 1..], n, maxRetries)
  {
    hide Survived, Cancels, Told, Used, CancelsOf, Opening, Rounds;
    var rest := events[t + 1..];
    assert events == events[..t + 1] + rest;
    assert Told(rs) + (Opening(r) + [H.TimerFired]) + rest == Told(rs) + (Opening(r) + ([H.TimerFired] + rest));
  }

  // A round more is behind send, or the last is.
  lemma OneMoreStands(rs: seq<Round>, r: Round, n: u32, attempt: int, cancelled: bool, events: seq<H.Event>, t: nat,
                      maxRetries: nat)
    requires t < |events| && Rounds(rs, r, n, maxRetries) && Used(rs, n) <= maxRetries
    requires attempt == if H.BusyIs(n) in r.after then -1 else Used(rs, n)
    requires CancelsOf(rs) + (Cancels(r.before) + Cancels(r.after)) == if cancelled then 1 else 0
    requires events[..t + 1] == Told(rs) + (Opening(r) + [H.TimerFired])
    ensures Stands(rs + [r], n, attempt + 1, cancelled, events, t + 1, maxRetries)
  {
    hide Survived, Cancels, Told, Used, CancelsOf, Opening, RetriesRunOut;
    ToldOneMore(rs, r);
    if attempt + 1 <= maxRetries {
      SurvivedOneMore(rs, r, n, maxRetries);
    } else {
      LastRoundIsRead(rs, r, n, events, t, maxRetries);
    }
  }

  lemma TimeoutIsRead(rs: seq<Round>, n: u32, attempt0: int, attempt: int, cancelled0: bool, cancelled1: bool,
                      cancelled: bool, events: seq<H.Event>, e0: nat, q: nat, t: nat, maxRetries: nat)
    requires e0 <= q < t < |events| && attempt0 <= maxRetries && events[q].Queued? && events[t].TimerFired?
    requires Stands(rs, n, attempt0, cancelled0, events, e0, maxRetries)
    requires InLine(events, e0, q, rs != [], cancelled0, cancelled1)
    requires Awaited(events, q + 1, t, n, attempt0, attempt, cancelled1, cancelled)
    ensures Stands(rs + [Read(events, e0, q, t)], n, attempt + 1, cancelled, events, t + 1, maxRetries)
  {
    hide InLine, Awaited, Survived, Cancels, Told, Used, CancelsOf, RetriesRunOut, Rounds, Opening, Read;
    RoundFits(rs, n, attempt0, attempt, cancelled0, cancelled1, cancelled, events, e0, q, t, maxRetries);
    RoundIsRead(events, e0, q, t);
    assert events[..e0] == Told(rs) && Used(rs, n) == attempt0;
    hide Stands;
    OneMoreStands(rs, Read(events, e0, q, t), n, attempt, cancelled, events, t, maxRetries);
  }

  // ----------------------------------------------------- device: link.c statics

  // What a transmit worker sees between two of its own steps: the session and
  // its two signal words change under it.
  datatype Sight = Sight(session: u32, ackSeq: u32, busySeq: u32, late: bool)

  // The frames a channel's queue may hold when one like f is to join them.
  function RoomFor(f: Frame): nat {
    if f.channel == 0 then 8
    else if IsDataChannel(f.channel) then if f.kind == DATA then 4 else 5
    else if f.channel == 6 then 2 else 4
  }

  class DeviceLink {
    var session: u32
    var wrapped: Option<u32>
    const rxNext: array<u32>
    const txNext: array<u32>
    const ackSeq: array<u32>
    const busySeq: array<u32>
    const rx: array<seq<Frame>>
    const tx: array<seq<D.Message>>
    ghost const workers: seq<D.Worker>

    ghost predicate Valid()
      reads this
    {
      && rxNext.Length == txNext.Length == ackSeq.Length == busySeq.Length == CHANNELS
      && rx.Length == tx.Length == |workers| == CHANNELS
      && rxNext != txNext && rxNext != ackSeq && rxNext != busySeq && txNext != ackSeq && txNext != busySeq
          && ackSeq != busySeq
    }

    ghost function View(): (d: D.Device)
      reads this, rxNext, txNext, ackSeq, busySeq, rx, tx
      requires Valid()
      ensures d.Wide()
    {
      D.Device(session, D.Unlocked, wrapped,
               seq(CHANNELS, c requires 0 <= c < CHANNELS
                             reads this, rxNext, txNext, ackSeq, busySeq, rx, tx requires Valid() =>
                     D.Lane(rxNext[c], txNext[c], ackSeq[c], busySeq[c], rx[c], tx[c], workers[c])))
    }

    // One frame through the receive task, HELLO apart; reply is what it sends.
    method AcceptSessionFrame(f: Frame) returns (reply: Option<Frame>)
      requires Valid() && f.channel < CHANNELS
      modifies this, rxNext, ackSeq, busySeq, rx
      ensures Valid() && View() == D.Received(old(View()), f) && reply == D.Reply(old(View()), f)
      // A frame taken before is acknowledged again, and changes nothing.
      ensures D.Deliverable(f) && f.session == old(session) && f.sequence < old(rxNext[f.channel]) ==>
                reply == Some(Frame(ACK, f.session, f.channel, f.sequence, [])) && View() == old(View())
      // The next frame is queued and acknowledged, unless its number is the last.
      ensures D.Deliverable(f) && f.session == old(session) && f.sequence == old(rxNext[f.channel])
              && |old(rx[f.channel])| < RoomFor(f) ==>
                rx[f.channel] == old(rx[f.channel]) + [f] && rxNext[f.channel] == Succ(f.sequence)
                && if f.sequence == 0xFFFF_FFFF then reply == None && wrapped == Some(session)
                   else reply == Some(Frame(ACK, f.session, f.channel, f.sequence, [])) && wrapped == old(wrapped)
      // Without room it is refused, and changes nothing.
      ensures D.Deliverable(f) && f.session == old(session) && f.sequence == old(rxNext[f.channel])
              && |old(rx[f.channel])| >= RoomFor(f) ==>
                reply == Some(Frame(BUSY, f.session, f.channel, f.sequence, [])) && View() == old(View())
      // An ACK or BUSY is noted; nothing else is answered or changes anything.
      ensures f.session == old(session) != 0 && f.payload == [] && f.kind == ACK ==>
                ackSeq[f.channel] == f.sequence && reply == None
      ensures f.session == old(session) != 0 && f.payload == [] && f.kind == BUSY ==>
                busySeq[f.channel] == f.sequence && reply == None
      ensures (f.session != old(session) || (f.kind != ACK && f.kind != BUSY && !D.Deliverable(f))
               || (D.Deliverable(f) && f.sequence > old(rxNext[f.channel]))) ==>
                reply == None && View() == old(View())
    {
      reply := None;
      var c := f.channel;
      if f.session == 0 || f.session != session {
        return;
      }
      if f.kind == ACK {
        if |f.payload| != 0 {
          return;
        }
        ackSeq[c] := f.sequence;
        return;
      }
      if f.kind == BUSY {
        if |f.payload| != 0 {
          return;
        }
        busySeq[c] := f.sequence;
        return;
      }
      if f.kind == ABORT || f.kind < OPEN || f.kind > ERROR || f.sequence > rxNext[c] {
        return;
      }
      if IsDataChannel(c) {
        if f.kind != OPEN && f.kind != DATA && f.kind != CLOSE {
          return;
        }
      } else if f.kind != RPC {
        return;
      }
      if f.sequence == 0 || (f.kind == DATA && |f.payload| > DATA_CHUNK) {
        return;
      }
      if f.sequence == rxNext[c] {
        var accepted := !(IsDataChannel(c) && f.kind == DATA && |rx[c]| >= 4) && |rx[c]| < D.RxCapacity(c);
        if !accepted {
          reply := Some(D.ControlFrame(BUSY, f));
          return;
        }
        rx[c] := rx[c] + [f];
        rxNext[c] := Succ(rxNext[c]);
        if rxNext[c] == 0 {
          wrapped := Some(session);
          return;
        }
      }
      reply := Some(D.ControlFrame(ACK, f));
    }

    // The whole of reset_session, as its caller sees it once the lock is free.
    method ResetSession(expected: u32, replacement: u32)
      requires Valid()
      modifies this, rxNext, txNext, ackSeq, busySeq, rx, tx
      ensures Valid()
      ensures View() == if expected != 0 && expected != old(session) then old(View())
                        else D.Publish(D.ClearQueues(D.ClearCounters(D.BeginReset(old(View()), expected, replacement))))
    {
      if expected != 0 && expected != session {
        return;
      }
      session := 0;
      for c := 0 to CHANNELS
        invariant forall d | 0 <= d < CHANNELS ::
            (rxNext[d], txNext[d], ackSeq[d], busySeq[d]) ==
            if d < c then (1, 1, 0, 0) else old((rxNext[d], txNext[d], ackSeq[d], busySeq[d]))
        invariant session == 0 && wrapped == old(wrapped)
        invariant rx[..] == old(rx[..]) && tx[..] == old(tx[..])
      {
        rxNext[c] := 1;
        txNext[c] := 1;
        ackSeq[c] := 0;
        busySeq[c] := 0;
      }
      for c := 0 to CHANNELS
        invariant forall d | 0 <= d < CHANNELS :: rxNext[d] == 1 && txNext[d] == 1 && ackSeq[d] == 0 && busySeq[d] == 0
        invariant forall d | 0 <= d < c :: rx[d] == [] && tx[d] == []
        invariant session == 0 && wrapped == old(wrapped)
      {
        tx[c] := [];
        rx[c] := [];
      }
      session := replacement;
    }
  }

  // --------------------------------------------------- device: a transmit worker

  // What a worker has come to, and how often it has transmitted its frame.
  datatype Labour = Labour(worker: D.Worker, sent: nat)

  // The part of its lane a polling worker looks at.
  function Seen(w: D.Worker, s: Sight): D.Lane { D.FRESH_LANE.(worker := w, ackSeq := s.ackSeq, busySeq := s.busySeq) }

  // A transmit worker's attempts, driven by what it sees while polling.
  function Work(w: D.Worker, c: byte, session: u32, sights: seq<Sight>): Labour
    decreases |sights|, if w.Trying? then 3 else if w.Cleared? then 2 else 1
  {
    var lane := D.FRESH_LANE.(worker := w);
    match w
    case Trying(_, _) => Work(D.Do(lane, c, session, D.Check).worker, c, session, sights)
    case Cleared(_, _) =>
      var l := Work(D.Do(lane, c, session, D.Transmit).worker, c, session, sights);
      l.(sent := l.sent + 1)
    case Polling(f, _) =>
      if sights == [] then Labour(w, 0)
      else
        var s := sights[0];
        var deed := if s.ackSeq == f.sequence then D.SeeAck else D.Deadline;
        if s.ackSeq == f.sequence || s.late || s.session != f.session
        then Work(D.Do(Seen(w, s), c, s.session, deed).worker, c, s.session, sights[1..])
        else Work(w, c, s.session, sights[1..])
    case _ => Labour(w, 0)
  }

  // One attempt that ends in its deadline: in the session, and without an ACK.
  predicate TimesOut(t: seq<Sight>, f: Frame) {
    t != [] && t[|t| - 1].late
    && (forall i | 0 <= i < |t| :: t[i].session == f.session && t[i].ackSeq != f.sequence)
    && (forall i | 0 <= i < |t| - 1 :: !t[i].late)
  }

  // One that sees its ACK.
  predicate SeesAck(t: seq<Sight>, f: Frame) {
    t != [] && t[|t| - 1].ackSeq == f.sequence
    && (forall i | 0 <= i < |t| - 1 :: t[i].session == f.session && t[i].ackSeq != f.sequence && !t[i].late)
  }

  function All(ts: seq<seq<Sight>>): seq<Sight> {
    if ts == [] then [] else All(ts[..|ts| - 1]) + ts[|ts| - 1]
  }

  // Deadlines in a row since one that found the host busy.
  function Unanswered(ts: seq<seq<Sight>>, f: Frame): nat {
    if ts == [] then 0
    else
      var t := ts[|ts| - 1];
      if t != [] && t[|t| - 1].busySeq == f.sequence then 0 else Unanswered(ts[..|ts| - 1], f) + 1
  }

  // Attempts that leave the worker another one.
  predicate Outlasted(ts: seq<seq<Sight>>, f: Frame) {
    ts == [] || (
      var n := |ts| - 1;
      Outlasted(ts[..n], f) && TimesOut(ts[n], f) && Unanswered(ts, f) < D.MAX_ATTEMPTS)
  }

  // The worker sees its ACK in the attempt after ts.
  predicate AckSeen(sights: seq<Sight>, ts: seq<seq<Sight>>, last: seq<Sight>, rest: seq<Sight>, f: Frame) {
    Outlasted(ts, f) && SeesAck(last, f) && sights == All(ts) + (last + rest)
  }

  // It has seen ten deadlines in a row.
  predicate AttemptsRunOut(sights: seq<Sight>, ts: seq<seq<Sight>>, last: seq<Sight>, rest: seq<Sight>, f: Frame) {
    Outlasted(ts, f) && TimesOut(last, f) && Unanswered(ts + [last], f) == D.MAX_ATTEMPTS
    && sights == All(ts) + (last + rest)
  }

  lemma {:induction false} PollingPasses(f: Frame, a: int, c: byte, t: seq<Sight>, rest: seq<Sight>)
    requires forall i | 0 <= i < |t| :: t[i].session == f.session && t[i].ackSeq != f.sequence && !t[i].late
    ensures Work(D.Polling(f, a), c, f.session, t + rest) == Work(D.Polling(f, a), c, f.session, rest)
    decreases |t|
  {
    if t == [] {
      assert t + rest == rest;
    } else {
      assert (t + rest)[1..] == t[1..] + rest;
      PollingPasses(f, a, c, t[1..], rest);
    }
  }

  lemma AttemptTimesOut(f: Frame, a: int, c: byte, t: seq<Sight>, rest: seq<Sight>)
    requires TimesOut(t, f) && a < D.MAX_ATTEMPTS
    ensures var a' := if t[|t| - 1].busySeq == f.sequence then 0 else a + 1;
            var l := Work(D.Trying(f, a'), c, f.session, rest);
            Work(D.Trying(f, a), c, f.session, t + rest) == l.(sent := l.sent + 1)
  {
    var n := |t| - 1;
    var tail := [t[n]] + rest;
    assert t + rest == t[..n] + tail && tail[1..] == rest;
    PollingPasses(f, a, c, t[..n], tail);
  }

  lemma AttemptSeesAck(f: Frame, a: int, c: byte, t: seq<Sight>, rest: seq<Sight>)
    requires SeesAck(t, f) && a < D.MAX_ATTEMPTS
    ensures Work(D.Trying(f, a), c, f.session, t + rest) == Labour(D.Finishing(f, true), 1)
  {
    var n := |t| - 1;
    var tail := [t[n]] + rest;
    assert t + rest == t[..n] + tail && tail[1..] == rest;
    PollingPasses(f, a, c, t[..n], tail);
  }

  lemma {:induction false} AttemptsPass(f: Frame, c: byte, ts: seq<seq<Sight>>, rest: seq<Sight>)
    requires Outlasted(ts, f)
    ensures var l := Work(D.Trying(f, Unanswered(ts, f)), c, f.session, rest);
            Work(D.Trying(f, 0), c, f.session, All(ts) + rest) == l.(sent := l.sent + |ts|)
    decreases |ts|
  {
    if ts == [] {
      assert All(ts) + rest == rest;
    } else {
      var front, t := ts[..|ts| - 1], ts[|ts| - 1];
      assert All(ts) + rest == All(front) + (t + rest);
      AttemptsPass(f, c, front, t + rest);
      FewUnanswered(front, f);
      AttemptTimesOut(f, Unanswered(front, f), c, t, rest);
      hide Work;
    }
  }

  lemma FewUnanswered(ts: seq<seq<Sight>>, f: Frame)
    requires Outlasted(ts, f)
    ensures Unanswered(ts, f) < D.MAX_ATTEMPTS
  {
  }

  lemma LiteralLabours(f: Frame, c: byte, sights: seq<Sight>)
    ensures forall ts, last, rest | AckSeen(sights, ts, last, rest, f) ::
              Work(D.Trying(f, 0), c, f.session, sights) == Labour(D.Finishing(f, true), |ts| + 1)
    ensures forall ts, last, rest | AttemptsRunOut(sights, ts, last, rest, f) ::
              Work(D.Trying(f, 0), c, f.session, sights) == Labour(D.Finishing(f, false), |ts| + 1)
  {
    forall ts, last, rest | AckSeen(sights, ts, last, rest, f)
      ensures Work(D.Trying(f, 0), c, f.session, sights) == Labour(D.Finishing(f, true), |ts| + 1)
    {
      AttemptsPass(f, c, ts, last + rest);
      FewUnanswered(ts, f);
      AttemptSeesAck(f, Unanswered(ts, f), c, last, rest);
      hide Work;
    }
    forall ts, last, rest | AttemptsRunOut(sights, ts, last, rest, f)
      ensures Work(D.Trying(f, 0), c, f.session, sights) == Labour(D.Finishing(f, false), |ts| + 1)
    {
      AttemptsPass(f, c, ts, last + rest);
      FewUnanswered(ts, f);
      AttemptTimesOut(f, Unanswered(ts, f), c, last, rest);
      assert (ts + [last])[..|ts|] == ts;
      assert Work(D.Trying(f, D.MAX_ATTEMPTS), c, f.session, rest) == Labour(D.Finishing(f, false), 0);
    }
  }

  // Where the loop of tx_worker stands after i sights, still in its session.
  predicate WorkStands(ts: seq<seq<Sight>>, f: Frame, attempt: int, sights: seq<Sight>, i: nat)
    requires i <= |sights|
  {
    sights[..i] == All(ts) && Unanswered(ts, f) == attempt && (attempt < D.MAX_ATTEMPTS ==> Outlasted(ts, f))
    && (attempt == D.MAX_ATTEMPTS ==>
          ts != [] && Outlasted(ts[..|ts| - 1], f) && TimesOut(ts[|ts| - 1], f))
  }

  // tx_worker from the numbered frame to its verdict.  Every transmission is
  // this frame; an ACK is seen in the end, or the session goes, or ten
  // deadlines pass in a row, where a busy host starts the count again.
  method TransmitWorker(f: Frame, c: byte, session0: u32, sights: seq<Sight>)
    returns (finished: bool, ok: bool, transmitted: seq<Frame>)
    ensures var l := Work(D.Trying(f, 0), c, session0, sights);
            |transmitted| == l.sent
            && if finished then l.worker == D.Finishing(f, ok) else l.worker.Polling? && l.worker.frame == f
    ensures forall i | 0 <= i < |transmitted| :: transmitted[i] == f
    ensures session0 == f.session ==>
              forall ts, last, rest | AckSeen(sights, ts, last, rest, f) :: finished && ok && |transmitted| == |ts| + 1
    ensures session0 == f.session ==>
              forall ts, last, rest | AttemptsRunOut(sights, ts, last, rest, f) ::
                finished && !ok && |transmitted| == |ts| + 1
    ensures finished && ok ==> exists ts, last, rest :: AckSeen(sights, ts, last, rest, f)
    ensures finished && !ok && session0 == f.session && (forall s | s in sights :: s.session == f.session) ==>
              exists ts, last, rest :: AttemptsRunOut(sights, ts, last, rest, f)
    ensures session0 != f.session ==> finished && !ok && transmitted == []
  {
    var attempt, i, session := 0, 0, session0;
    ghost var ts: seq<seq<Sight>> := [];
    finished, ok, transmitted := false, false, [];
    assert sights[0..] == sights && sights[..0] == [];
    if session0 == f.session { LiteralLabours(f, c, sights); }
    hide Work, AckSeen, AttemptsRunOut, TimesOut, SeesAck, Outlasted, Unanswered, All;
    assert WorkStands([], f, 0, sights, 0) by { NoAttempts(f, sights); }
    while attempt < D.MAX_ATTEMPTS && f.session == session
      invariant 0 <= attempt <= D.MAX_ATTEMPTS && 0 <= i <= |sights| && !ok && !finished
      invariant session == f.session ==> session0 == f.session && WorkStands(ts, f, attempt, sights, i)
      invariant session != f.session ==> session == session0 || exists s :: s in sights && s.session != f.session
      invariant session0 != f.session ==> transmitted == [] && session == session0
      invariant Work(D.Trying(f, 0), c, session0, sights)
             == And(Work(D.Trying(f, attempt), c, session, sights[i..]), |transmitted|)
      invariant forall k | 0 <= k < |transmitted| :: transmitted[k] == f
      decreases |sights| - i, D.MAX_ATTEMPTS - attempt
    {
      hide WorkStands;
      transmitted := transmitted + [f];
      AttemptStarts(f, attempt, c, sights[i..]);
      var expired, busy;
      ghost var i0, attempt0 := i, attempt;
      i, session, ok, expired, busy := Poll(f, attempt, c, sights, i);
      if ok { AckIsSeen(ts, f, attempt, sights, i0, i); }
      if !expired { return ok, ok, transmitted; }
      attempt := if busy then 0 else attempt + 1;
      if session == f.session { DeadlineIsSeen(ts, f, attempt0, attempt, sights, i0, i); }
      ts := ts + [sights[i0..i]];
    }
    finished := true;
    WorkerGivesUp(f, attempt, c, session, sights[i..]);
    if session == f.session { NoneLeft(ts, f, sights, i); }
  }

  function And(l: Labour, n: nat): Labour { l.(sent := l.sent + n) }

  lemma NoAttempts(f: Frame, sights: seq<Sight>)
    ensures WorkStands([], f, 0, sights, 0)
  {
  }

  lemma AttemptStarts(f: Frame, attempt: int, c: byte, sights: seq<Sight>)
    requires attempt < D.MAX_ATTEMPTS
    ensures Work(D.Trying(f, attempt), c, f.session, sights)
            == And(Work(D.Polling(f, attempt), c, f.session, sights), 1)
  {
  }

  lemma WorkerGivesUp(f: Frame, attempt: int, c: byte, session: u32, sights: seq<Sight>)
    requires attempt >= D.MAX_ATTEMPTS || session != f.session
    ensures Work(D.Trying(f, attempt), c, session, sights) == Labour(D.Finishing(f, false), 0)
  {
  }

  lemma AckIsSeen(ts: seq<seq<Sight>>, f: Frame, attempt: int, sights: seq<Sight>, i0: nat, i: nat)
    requires i0 < i <= |sights| && attempt < D.MAX_ATTEMPTS
    requires WorkStands(ts, f, attempt, sights, i0) && SeesAck(sights[i0..i], f)
    ensures exists ts, last, rest :: AckSeen(sights, ts, last, rest, f)
  {
    hide SeesAck, Outlasted, Unanswered, All;
    assert sights == sights[..i0] + (sights[i0..i] + sights[i..]);
    assert AckSeen(sights, ts, sights[i0..i], sights[i..], f);
  }

  lemma DeadlineIsSeen(ts: seq<seq<Sight>>, f: Frame, attempt0: int, attempt: int, sights: seq<Sight>, i0: nat, i: nat)
    requires i0 < i <= |sights| && attempt0 < D.MAX_ATTEMPTS
    requires WorkStands(ts, f, attempt0, sights, i0) && TimesOut(sights[i0..i], f)
    requires attempt == if sights[i - 1].busySeq == f.sequence then 0 else attempt0 + 1
    ensures WorkStands(ts + [sights[i0..i]], f, attempt, sights, i)
  {
    hide TimesOut;
    var t := sights[i0..i];
    var all := ts + [t];
    assert all[..|ts|] == ts && all[|ts|] == t;
    assert t[|t| - 1] == sights[i - 1];
    assert sights[..i] == sights[..i0] + t;
  }

  lemma NoneLeft(ts: seq<seq<Sight>>, f: Frame, sights: seq<Sight>, i: nat)
    requires i <= |sights| && WorkStands(ts, f, D.MAX_ATTEMPTS, sights, i)
    ensures exists ts, last, rest :: AttemptsRunOut(sights, ts, last, rest, f)
  {
    hide TimesOut, Outlasted, Unanswered;
    var front, t, rest := ts[..|ts| - 1], ts[|ts| - 1], sights[i..];
    assert front + [t] == ts;
    assert sights[..i] == All(front) + t;
    hide All;
    assert sights == sights[..i] + rest;
    assert All(front) + t + rest == All(front) + (t + rest);
    assert AttemptsRunOut(sights, front, t, rest, f);
  }

  // The polling loop of one attempt: until the ACK, the deadline or a new session.
  method Poll(f: Frame, attempt: int, c: byte, sights: seq<Sight>, i0: nat)
    returns (i: nat, session: u32, ok: bool, expired: bool, busy: bool)
    requires i0 <= |sights| && attempt < D.MAX_ATTEMPTS
    ensures i0 <= i <= |sights| && !(ok && expired) && (ok || expired ==> i0 < i)
    ensures ok ==> SeesAck(sights[i0..i], f)
    ensures expired ==>
              session == sights[i - 1].session && (session == f.session ==> TimesOut(sights[i0..i], f))
              && busy == (sights[i - 1].busySeq == f.sequence)
    ensures !ok && !expired ==> i == |sights| && session == f.session
    ensures Work(D.Polling(f, attempt), c, f.session, sights[i0..])
         == if ok then Labour(D.Finishing(f, true), 0)
            else if expired then Work(D.Trying(f, if busy then 0 else attempt + 1), c, session, sights[i..])
            else Labour(D.Polling(f, attempt), 0)
  {
    i, session, ok, expired, busy := i0, f.session, false, false, false;
    while i < |sights|
      invariant i0 <= i <= |sights| && !ok && !expired && session == f.session
      invariant forall k | i0 <= k < i ::
                  sights[k].session == f.session && sights[k].ackSeq != f.sequence && !sights[k].late
      invariant Work(D.Polling(f, attempt), c, f.session, sights[i0..])
             == Work(D.Polling(f, attempt), c, f.session, sights[i..])
    {
      var s := sights[i];
      assert sights[i..][0] == s && sights[i..][1..] == sights[i + 1..];
      i := i + 1;
      session := s.session;
      if s.ackSeq == f.sequence {
        ok := true;
        return;
      }
      if s.late || s.session != f.session {
        expired, busy := true, s.busySeq == f.sequence;
        return;
      }
    }
  }
}
