/**
  The host's mapping from number to frame.  It depends on the host alone, so it
  holds in every run, whatever the device and the medium do.
  */
module LinkNumbers {
  import opened Frames
  import opened LinkHistory
  import opened LinkSystem
  import opened LinkSafety
  import H = LinkHost
  import D = LinkDevice

  ghost predicate NumbersOk(ch: H.Channel, k: Key, sent: Log) {
    && 1 <= ch.sequence && SendingOk(ch.sending, ch.sequence, k, At(sent, k))
    && (ch.outgoing.Some? ==> Fits(ch.outgoing.value, k) && Recorded(sent, ch.outgoing.value))
  }

  ghost predicate HostNumbers(h: H.Host, used: set<u32>, sent: Log)
    requires h.Wide()
  {
    && h.session in used
    && (forall f | f in h.high :: !Sequenced(f))
    && (h.control.Some? ==> !Sequenced(h.control.value))
    && (forall c: byte | c < CHANNELS :: NumbersOk(h.channels[c], Key(h.session, c), sent))
  }

  ghost predicate Numbering(s: System) {
    && s.Wide()
    && (!s.host.closed ==> HostNumbers(s.host, s.used, s.down.sent))
    && (forall f | f in s.toDevice && Sequenced(f) :: Recorded(s.down.sent, f))
    && (forall k :: At(s.down.sent, k) != [] ==> k.session in s.used)
  }

  lemma OneChannelNumbers(s: System, c: byte, ch: H.Channel)
    requires Numbering(s) && !s.host.closed && c < CHANNELS && NumbersOk(ch, Key(s.host.session, c), s.down.sent)
    ensures Numbering(OnHost(s, c, ch))
  {
  }

  // A frame leaves the channel's sender for its outgoing queue, numbered.
  lemma QueuedKeeps(s: System, c: byte)
    requires Numbering(s) && !s.host.closed && c < CHANNELS && CanReact(s.host.channels[c], H.Queued)
    ensures Numbering(SendReact(s, c, H.Queued))
  {
    var s' := SendReact(s, c, H.Queued);
    var ch, k := s.host.channels[c], Key(s.host.session, c);
    assert NumbersOk(ch, k, s.down.sent);
    var f := ch.sending.frame;
    assert Recorded(s'.down.sent, f);
    forall x | x != k ensures At(s'.down.sent, x) == At(s.down.sent, x) { }
    forall d: byte | d < CHANNELS
      ensures NumbersOk(s'.host.channels[d], Key(s.host.session, d), s'.down.sent)
    {
      assert NumbersOk(s.host.channels[d], Key(s.host.session, d), s.down.sent);
    }
  }

  lemma ReactKeeps(s: System, c: byte, e: H.Event)
    requires Numbering(s) && !s.host.closed && c < CHANNELS && CanReact(s.host.channels[c], e) && !e.Queued?
    ensures Numbering(SendReact(s, c, e))
  {
    var s' := SendReact(s, c, e);
    var ch, k := s.host.channels[c], Key(s.host.session, c);
    assert NumbersOk(ch, k, s.down.sent);
    if !s'.host.closed { OneChannelNumbers(s, c, s'.host.channels[c]); }
  }

  lemma ChannelKeeps(s: System, step: Step)
    requires Numbering(s) && Enabled(s, step)
    requires step.WriteChannel? || step.SendBegins? || step.ConnOpens? || step.ConnReads? || step.ConnFreed?
    ensures Numbering(Apply(s, step))
  {
    var c := step.channel;
    assert NumbersOk(s.host.channels[c], Key(s.host.session, c), s.down.sent);
    OneChannelNumbers(s, c, Apply(s, step).host.channels[c]);
  }

  lemma ReceivingKeeps(s: System, f: Frame)
    requires Numbering(s) && !s.host.closed && f.channel < CHANNELS
    ensures Numbering(HostReceive(s, f))
  {
    assert NumbersOk(s.host.channels[f.channel], Key(s.host.session, f.channel), s.down.sent);
  }

  lemma HostKeeps(s: System, step: Step)
    requires Numbering(s) && Enabled(s, step)
    requires step.NewLink? || step.CloseLink? || step.QueueHello? || step.HandshakeDone? || step.QueueControl?
             || step.QueueAbort? || step.WriteHigh? || step.ReplyRead?
    ensures Numbering(Apply(s, step))
  {
  }

  lemma DeviceKeeps(s: System, step: Step)
    requires Numbering(s) && Enabled(s, step) && !OnHostSide(step)
    ensures Numbering(Apply(s, step))
  {
    var s' := Apply(s, step);
    assert s'.host == s.host && s'.toDevice == s.toDevice && s'.used == s.used && s'.down.sent == s.down.sent;
  }

  lemma StepKeepsNumbering(s: System, step: Step)
    requires Numbering(s)
    ensures Numbering(Next(s, step))
  {
    assert s.Wide();
    hide Apply, Numbering, Enabled;
    if Enabled(s, step) {
      if !OnHostSide(step) {
        DeviceKeeps(s, step);
      } else {
        HostSideKeeps(s, step);
      }
    }
  }

  lemma HostSideKeeps(s: System, step: Step)
    requires Numbering(s) && Enabled(s, step) && OnHostSide(step)
    ensures Numbering(Apply(s, step))
  {
    hide HostReceive, SendReact, Numbering;
    match step
    case HostReceives(f) => ReceivingKeeps(s, f);
    case SendReacts(c, e) => if e.Queued? { QueuedKeeps(s, c); } else { ReactKeeps(s, c, e); }
    case WriteChannel(_) => ChannelKeeps(s, step);
    case SendBegins(_, _, _) => ChannelKeeps(s, step);
    case ConnOpens(_) => ChannelKeeps(s, step);
    case ConnReads(_) => ChannelKeeps(s, step);
    case ConnFreed(_) => ChannelKeeps(s, step);
    case _ => HostKeeps(s, step);
  }

  lemma {:induction false} RunKeepsNumbering(steps: seq<Step>)
    ensures Numbering(After(steps))
    decreases |steps|
  {
    if steps != [] {
      var n := |steps| - 1;
      RunKeepsNumbering(steps[..n]);
      StepKeepsNumbering(After(steps[..n]), steps[n]);
    }
  }

  // In every run a number that was ever queued on a channel of a session keeps
  // its frame: no retry, cancellation or cleanup puts another one under it, on
  // the wire or in the queue.
  lemma NumbersAreUnambiguous(steps: seq<Step>, f: Frame, g: Frame)
    requires Sequenced(f) && Sequenced(g) && KeyOf(f) == KeyOf(g) && f.sequence == g.sequence
    ensures f in After(steps).toDevice && g in After(steps).toDevice ==> f == g
    ensures var s := After(steps);
            (!s.host.closed && f in s.toDevice && f.session == s.host.session && f.channel < CHANNELS
             && s.host.channels[f.channel].outgoing == Some(g)) ==> f == g
  {
    RunKeepsNumbering(steps);
    var s := After(steps);
    if !s.host.closed && f.session == s.host.session && f.channel < CHANNELS {
      assert NumbersOk(s.host.channels[f.channel], Key(s.host.session, f.channel), s.down.sent);
    }
  }
}
