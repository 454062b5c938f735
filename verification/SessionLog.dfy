/** The offset-addressed log of a container session: a linear buffer that forgets its oldest bytes but counts them. */
module SessionLog {
  import opened Common
  import opened LineLogs

  /** A session log as a value. */
  datatype Log = Log(buf: Bytes, dropped: nat) {
    /** The end offset a snapshot reports. */
    function Offset(): nat {
      dropped + |buf|
    }
  }

  const EMPTY := Log([], 0)

  class SessionBuffer {
    const max: nat
    var buf: Bytes
    var dropped: nat

    ghost function Value(): Log
      reads this
    {
      Log(buf, dropped)
    }

    constructor (max: nat)
      requires max > 0
      ensures this.max == max && Value() == EMPTY
    {
      this.max, buf, dropped := max, [], 0;
    }

    method Write(p: Bytes)
      requires |buf| <= max
      modifies this
      ensures |buf| <= max
      ensures Value() == Wrote(old(Value()), p, max)
    {
      if |p| >= max {
        buf := p[|p| - max..];
        dropped := dropped + (|p| - max);
        return;
      }
      if |buf| + |p| > max {
        var drop := |buf| + |p| - max;
        buf := buf[drop..];
        dropped := dropped + drop;
      }
      buf := buf + p;
    }

    /** What lies behind since, and the offset to ask from next time; without a since, the last tail lines. */
    method Snapshot(since: int, tail: int) returns (text: Bytes, total: nat)
      ensures total == Value().Offset()
      ensures since <= 0 && tail > 0 ==> text == JoinLines(LastN(SplitAll(buf), tail))
      ensures since > 0 || tail <= 0 ==> text == Since(Value(), since)
    {
      total := dropped + |buf|;
      if since <= 0 {
        text := buf;
        if tail > 0 {
          text := JoinLines(LastN(SplitAll(text), tail));
        }
        return;
      }
      if since < dropped {
        return buf, total;
      }
      var start := since - dropped;
      if start > |buf| {
        start := |buf|;
      }
      text := buf[start..];
    }
  }

  /** One write: the buffer keeps the newest max bytes; an oversized write does not count the bytes it displaces. */
  function Wrote(l: Log, p: Bytes, max: nat): Log {
    if |p| >= max then Log(LastN(p, max), l.dropped + |p| - max)
    else Log(LastN(l.buf + p, max), l.dropped + |l.buf + p| - |LastN(l.buf + p, max)|)
  }

  function Run(writes: seq<Bytes>, max: nat): Log {
    if writes == [] then EMPTY else Wrote(Run(writes[..|writes| - 1], max), writes[|writes| - 1], max)
  }

  /** A write that the offset accounts for in full: shorter than the buffer, or into an empty buffer. */
  ghost predicate Counted(writes: seq<Bytes>, i: nat, max: nat)
    requires i < |writes|
  {
    |writes[i]| < max || Flatten(writes[..i]) == []
  }

  ghost predicate AllCounted(writes: seq<Bytes>, max: nat) {
    forall i :: 0 <= i < |writes| ==> Counted(writes, i, max)
  }

  lemma AllCountedSnoc(writes: seq<Bytes>, max: nat)
    requires writes != []
    ensures AllCounted(writes, max) <==>
            AllCounted(writes[..|writes| - 1], max) && Counted(writes, |writes| - 1, max)
  {
    var front := writes[..|writes| - 1];
    forall i | 0 <= i < |front| ensures Counted(writes, i, max) <==> Counted(front, i, max) {
      assert writes[..i] == front[..i];
    }
  }

  /** One write onto a log that holds the tail of a stream. */
  lemma WroteHolds(l: Log, stream: Bytes, p: Bytes, max: nat)
    requires max > 0 && l.buf == LastN(stream, max)
    ensures Wrote(l, p, max).buf == LastN(stream + p, max)
    ensures Wrote(l, p, max).Offset() == l.Offset() + |p| - if |p| < max then 0 else |l.buf|
  {
    LastNAppend(stream, p, max);
    if |p| >= max {
      assert (stream + p)[|stream| + |p| - max..] == p[|p| - max..];
    }
  }

  lemma {:induction false} RunHolds(writes: seq<Bytes>, max: nat)
    requires max > 0
    ensures var l := Run(writes, max);
            && l.buf == LastN(Flatten(writes), max)
            && l.Offset() <= |Flatten(writes)|
            && (l.Offset() == |Flatten(writes)| <==> AllCounted(writes, max))
  {
    if writes != [] {
      var n := |writes| - 1;
      RunHolds(writes[..n], max);
      WroteHolds(Run(writes[..n], max), Flatten(writes[..n]), writes[n], max);
      AllCountedSnoc(writes, max);
    }
  }

  /** The reported offset is the number of bytes written exactly when every write was counted in full. */
  lemma OffsetIsStreamLengthIff(writes: seq<Bytes>, max: nat)
    requires max > 0
    ensures Run(writes, max).Offset() == |Flatten(writes)| <==> AllCounted(writes, max)
  {
    RunHolds(writes, max);
  }

  /** The text part of a snapshot without a line limit. */
  function Since(l: Log, since: int): Bytes {
    if since <= 0 || since < l.dropped then l.buf else l.buf[Min(since - l.dropped, |l.buf|)..]
  }

  /** With every write counted, a snapshot from a remembered offset is the stream from that offset on. */
  lemma SnapshotIsStreamSuffix(writes: seq<Bytes>, max: nat, since: nat)
    requires max > 0 && AllCounted(writes, max)
    requires Run(writes, max).dropped <= since <= |Flatten(writes)|
    ensures Since(Run(writes, max), since) == Flatten(writes)[since..]
  {
    RunHolds(writes, max);
    var l := Run(writes, max);
    TailFrom(Flatten(writes), max, l.dropped, since);
  }

  lemma TailFrom(stream: Bytes, max: nat, dropped: nat, since: nat)
    requires dropped + |LastN(stream, max)| == |stream| && dropped <= since <= |stream|
    ensures LastN(stream, max)[since - dropped..] == stream[since..]
  {
    assert LastN(stream, max) == stream[dropped..];
  }

  // ---------- a polling client ----------

  datatype Event = Writes(p: Bytes) | Polls

  /** The writes so far, and what a client has assembled and the offset it will ask from. */
  datatype Session = Session(writes: seq<Bytes>, got: Bytes, offset: nat)

  function Handle(s: Session, e: Event, max: nat): Session {
    match e
    case Writes(p) => s.(writes := s.writes + [p])
    case Polls =>
      var l := Run(s.writes, max);
      s.(got := if s.offset == 0 then Since(l, 0) else s.got + Since(l, s.offset), offset := l.Offset())
  }

  function Play(events: seq<Event>, max: nat): Session {
    if events == [] then Session([], [], 0) else Handle(Play(events[..|events| - 1], max), events[|events| - 1], max)
  }

  /** At every poll the client's offset has not been forgotten yet. */
  ghost predicate KeepsUp(events: seq<Event>, max: nat) {
    forall i :: 0 <= i < |events| && events[i] == Polls ==> Remembered(Play(events[..i], max), max)
  }

  ghost predicate Remembered(s: Session, max: nat) {
    s.offset >= Run(s.writes, max).dropped
  }

  /** One poll of a client that has the stream up to its offset brings it up to the end. */
  lemma PollCatchesUp(s: Session, max: nat)
    requires max > 0 && AllCounted(s.writes, max) && Remembered(s, max)
    requires s.offset <= |Flatten(s.writes)| && s.got == Flatten(s.writes)[..s.offset]
    ensures var s' := Handle(s, Polls, max);
            s'.offset == |Flatten(s.writes)| && s'.got == Flatten(s.writes)
  {
    RunHolds(s.writes, max);
    SnapshotIsStreamSuffix(s.writes, max, s.offset);
    var stream := Flatten(s.writes);
    assert stream[..s.offset] + stream[s.offset..] == stream;
  }

  /** A client that keeps up holds exactly the stream up to its offset, without gap or repeat. */
  lemma {:induction false} PollingRebuildsStream(events: seq<Event>, max: nat)
    requires max > 0 && AllCounted(Play(events, max).writes, max) && KeepsUp(events, max)
    ensures var s := Play(events, max);
            s.offset <= |Flatten(s.writes)| && s.got == Flatten(s.writes)[..s.offset]
  {
    if events != [] {
      var n := |events| - 1;
      var front := events[..n];
      var s := Play(front, max);
      if events[n].Writes? {
        FlattenSnoc(s.writes, events[n].p);
        AllCountedSnoc(s.writes + [events[n].p], max);
        assert (s.writes + [events[n].p])[..|s.writes|] == s.writes;
      }
      KeepsUpFront(events, max);
      PollingRebuildsStream(front, max);
      if events[n] == Polls {
        assert Remembered(Play(events[..n], max), max);
        PollCatchesUp(s, max);
      }
    }
  }

  lemma KeepsUpFront(events: seq<Event>, max: nat)
    requires events != [] && KeepsUp(events, max)
    ensures KeepsUp(events[..|events| - 1], max)
  {
    var front := events[..|events| - 1];
    forall i | 0 <= i < |front| && front[i] == Polls ensures Remembered(Play(front[..i], max), max) {
      assert front[..i] == events[..i] && events[i] == Polls;
    }
  }

  /** A client whose offset has been forgotten gets all that is held, the last bytes of the stream. */
  lemma ForgottenGetsAll(writes: seq<Bytes>, max: nat, since: int)
    requires max > 0 && (since <= 0 || since < Run(writes, max).dropped)
    ensures Since(Run(writes, max), since) == LastN(Flatten(writes), max)
  {
    RunHolds(writes, max);
  }
}
