/** The stream monitor: packet and byte counters, loss inferred from gaps in
    the sequence numbers, bounded latency/quality windows and the derived
    statistics. The lock is left out (the model is sequential) and the
    wall-clock time is a parameter of `Start` and `GetStats`. */
module Monitoring {
  import opened Common

  /** `deque(maxlen=100)` for both sample windows. */
  const WINDOW: nat := 100

  // ---------------------------------------------------------------------
  // Loss inferred from sequence gaps
  // ---------------------------------------------------------------------

  /** Packets counted as lost when `seq` arrives after `last`: only once a
      sequence has been seen (`last >= 0`) and only for a forward jump. */
  function GapLoss(last: int, sequence: int): (n: nat)
    ensures n > 0 <==> last >= 0 && sequence > last + 1
    ensures n > 0 ==> n == sequence - (last + 1)
  {
    if last >= 0 && sequence > last + 1 then sequence - (last + 1) else 0
  }

  /** No packet of the run is more than one past the one before it. */
  predicate NoGaps(last: int, seqs: seq<int>)
    decreases |seqs|
  {
    seqs == [] || (seqs[0] <= last + 1 && NoGaps(seqs[0], seqs[1..]))
  }

  /** Loss accumulated over a run of sequenced packets, starting from `last`. */
  function LossOver(last: int, seqs: seq<int>): (n: nat)
    ensures NoGaps(last, seqs) ==> n == 0
    decreases |seqs|
  {
    if seqs == [] then 0 else GapLoss(last, seqs[0]) + LossOver(seqs[0], seqs[1..])
  }

  lemma LossExamples()
    ensures LossOver(-1, [0, 1, 2, 5, 6]) == 2
    ensures LossOver(-1, [0, 1, 1, 2]) == 0
  {
    assert LossOver(-1, [0, 1, 2, 5, 6]) == 0 + LossOver(0, [1, 2, 5, 6]);
    assert LossOver(2, [5, 6]) == 2 + LossOver(5, [6]);
    assert LossOver(-1, [0, 1, 1, 2]) == LossOver(0, [1, 1, 2]);
  }

  predicate StrictlyIncreasing(s: seq<int>)
  {
    forall i, j :: 0 <= i < j < |s| ==> s[i] < s[j]
  }

  /** Over strictly increasing non-negative sequence numbers that follow
      `last` (or start a fresh run with `last == -1`), the loss counter
      is exactly the count of numbers skipped. */
  lemma {:induction false} LossCountsSkipped(last: int, seqs: seq<int>)
    requires seqs != [] && StrictlyIncreasing(seqs) && seqs[0] >= 0
    requires last == -1 || (last >= 0 && last < seqs[0])
    ensures LossOver(last, seqs) ==
              (seqs[|seqs| - 1] - (if last == -1 then seqs[0] else last + 1) + 1) - |seqs|
    decreases |seqs|
  {
    if |seqs| == 1 {
    } else {
      var rest := seqs[1..];
      assert rest[|rest| - 1] == seqs[|seqs| - 1];
      assert StrictlyIncreasing(rest);
      LossCountsSkipped(seqs[0], rest);
    }
  }

  /** `last_sequence` after a run: the last number of the run, or `last`
      when the run is empty. */
  function LastSeen(last: int, seqs: seq<int>): int
  {
    if seqs == [] then last else seqs[|seqs| - 1]
  }

  /** Loss over two consecutive runs adds up, the second run starting from
      where the first left `last_sequence`. */
  lemma {:induction false} LossOverAppend(last: int, a: seq<int>, b: seq<int>)
    ensures LossOver(last, a + b) == LossOver(last, a) + LossOver(LastSeen(last, a), b)
    decreases |a|
  {
    if a == [] {
      assert a + b == b;
    } else {
      assert (a + b)[0] == a[0] && (a + b)[1..] == a[1..] + b;
      LossOverAppend(a[0], a[1..], b);
      if a[1..] != [] {
        assert a[1..][|a[1..]| - 1] == a[|a| - 1];
      }
    }
  }

  // ---------------------------------------------------------------------
  // get_stats result
  // ---------------------------------------------------------------------

  datatype Stats = Stats(
    uptime: real,
    packetsSent: nat,
    packetsReceived: nat,
    packetsLost: nat,
    packetLossRate: real,
    bytesSent: int,
    bytesReceived: int,
    bitrate: real,
    avgLatency: real,
    maxLatency: real,
    minLatency: real,
    avgQuality: real)

  class StreamMonitor {
    var packetsSent: nat
    var packetsReceived: nat
    var packetsLost: nat
    var bytesSent: int
    var bytesReceived: int
    var latencySamples: seq<real>
    var qualitySamples: seq<real>
    var startTime: Option<real>
    var lastSequence: int

    ghost predicate Valid()
      reads this
    {
      |latencySamples| <= WINDOW && |qualitySamples| <= WINDOW
    }

    /** The freshly constructed (and freshly reset) state. */
    ghost predicate Initial()
      reads this
    {
      packetsSent == 0 && packetsReceived == 0 && packetsLost == 0 &&
      bytesSent == 0 && bytesReceived == 0 &&
      latencySamples == [] && qualitySamples == [] &&
      startTime == None && lastSequence == -1
    }

    constructor ()
      ensures Valid() && Initial()
    {
      packetsSent, packetsReceived, packetsLost := 0, 0, 0;
      bytesSent, bytesReceived := 0, 0;
      latencySamples, qualitySamples := [], [];
      startTime := None;
      lastSequence := -1;
    }

    /** `start`, with `time.time()` given as `now`. */
    method Start(now: real)
      modifies this
      requires Valid()
      ensures Valid() && startTime == Some(now)
      ensures packetsSent == old(packetsSent) && packetsReceived == old(packetsReceived)
      ensures packetsLost == old(packetsLost) && lastSequence == old(lastSequence)
      ensures bytesSent == old(bytesSent) && bytesReceived == old(bytesReceived)
      ensures latencySamples == old(latencySamples) && qualitySamples == old(qualitySamples)
    {
      startTime := Some(now);
    }

    method RecordPacketSent(size: int)
      modifies this
      requires Valid()
      ensures Valid()
      ensures packetsSent == old(packetsSent) + 1 && bytesSent == old(bytesSent) + size
      ensures packetsReceived == old(packetsReceived) && packetsLost == old(packetsLost)
      ensures bytesReceived == old(bytesReceived) && lastSequence == old(lastSequence)
      ensures latencySamples == old(latencySamples) && qualitySamples == old(qualitySamples)
      ensures startTime == old(startTime)
    {
      packetsSent := packetsSent + 1;
      bytesSent := bytesSent + size;
    }

    /** `record_packet_received(size, sequence)`; a `None` sequence only
        updates the counters. */
    method RecordPacketReceived(size: int, sequence: Option<int>)
      modifies this
      requires Valid()
      ensures Valid()
      ensures packetsReceived == old(packetsReceived) + 1
      ensures bytesReceived == old(bytesReceived) + size
      ensures sequence.None? ==> packetsLost == old(packetsLost) && lastSequence == old(lastSequence)
      ensures sequence.Some? ==>
                packetsLost == old(packetsLost) + GapLoss(old(lastSequence), sequence.value) &&
                lastSequence == sequence.value
      ensures packetsSent == old(packetsSent) && bytesSent == old(bytesSent)
      ensures latencySamples == old(latencySamples) && qualitySamples == old(qualitySamples)
      ensures startTime == old(startTime)
    {
      packetsReceived := packetsReceived + 1;
      bytesReceived := bytesReceived + size;
      if sequence.Some? && lastSequence >= 0 {
        var expected := lastSequence + 1;
        if sequence.value > expected {
          packetsLost := packetsLost + (sequence.value - expected);
        }
      }
      if sequence.Some? {
        lastSequence := sequence.value;
      }
    }

    method RecordLatency(latencyMs: real)
      modifies this
      requires Valid()
      ensures Valid()
      ensures latencySamples == Append(old(latencySamples), latencyMs, WINDOW)
      ensures qualitySamples == old(qualitySamples)
      ensures packetsSent == old(packetsSent) && packetsReceived == old(packetsReceived)
      ensures packetsLost == old(packetsLost) && lastSequence == old(lastSequence)
      ensures bytesSent == old(bytesSent) && bytesReceived == old(bytesReceived)
      ensures startTime == old(startTime)
    {
      latencySamples := Append(latencySamples, latencyMs, WINDOW);
    }

    method RecordQuality(qualityPercent: real)
      modifies this
      requires Valid()
      ensures Valid()
      ensures qualitySamples == Append(old(qualitySamples), qualityPercent, WINDOW)
      ensures latencySamples == old(latencySamples)
      ensures packetsSent == old(packetsSent) && packetsReceived == old(packetsReceived)
      ensures packetsLost == old(packetsLost) && lastSequence == old(lastSequence)
      ensures bytesSent == old(bytesSent) && bytesReceived == old(bytesReceived)
      ensures startTime == old(startTime)
    {
      qualitySamples := Append(qualitySamples, qualityPercent, WINDOW);
    }

    /** `get_stats`, with `time.time()` given as `now`. A start time of
        0.0 is falsy in the source and so also gives an uptime of 0. */
    function GetStats(now: real): (s: Stats)
      reads this
      ensures s.uptime == if startTime.None? || startTime.value == 0.0 then 0.0 else now - startTime.value
      ensures s.packetsSent == packetsSent && s.packetsReceived == packetsReceived
      ensures s.packetsLost == packetsLost
      ensures s.bytesSent == bytesSent && s.bytesReceived == bytesReceived
      // loss rate against the sent count, or the received count on a receiver
      ensures var total := if packetsSent > 0 then packetsSent else packetsReceived;
              (total == 0 ==> s.packetLossRate == 0.0) &&
              (total > 0 ==> s.packetLossRate * total as real == packetsLost as real * 100.0)
      ensures s.uptime > 0.0 ==> s.bitrate * s.uptime == bytesSent as real * 8.0
      ensures s.uptime <= 0.0 ==> s.bitrate == 0.0
      ensures latencySamples == [] ==> s.avgLatency == 0.0 && s.maxLatency == 0.0 && s.minLatency == 0.0
      ensures latencySamples != [] ==>
                s.minLatency in latencySamples && s.maxLatency in latencySamples &&
                s.minLatency <= s.avgLatency <= s.maxLatency &&
                forall x :: x in latencySamples ==> s.minLatency <= x <= s.maxLatency
      ensures qualitySamples == [] ==> s.avgQuality == 100.0
      ensures qualitySamples != [] ==> MinOf(qualitySamples) <= s.avgQuality <= MaxOf(qualitySamples)
    {
      var uptime := if startTime.Some? && startTime.value != 0.0 then now - startTime.value else 0.0;
      var total := if packetsSent > 0 then packetsSent else packetsReceived;
      Stats(
        uptime,
        packetsSent,
        packetsReceived,
        packetsLost,
        if total > 0 then packetsLost as real / total as real * 100.0 else 0.0,
        bytesSent,
        bytesReceived,
        if uptime > 0.0 then bytesSent as real * 8.0 / uptime else 0.0,
        Mean(latencySamples, 0.0),
        if latencySamples != [] then MaxOf(latencySamples) else 0.0,
        if latencySamples != [] then MinOf(latencySamples) else 0.0,
        Mean(qualitySamples, 100.0))
    }

    /** `reset`: every field back to its constructor value. */
    method Reset()
      modifies this
      ensures Valid() && Initial()
    {
      packetsSent, packetsReceived, packetsLost := 0, 0, 0;
      bytesSent, bytesReceived := 0, 0;
      latencySamples, qualitySamples := [], [];
      startTime := None;
      lastSequence := -1;
    }

    /** After construction or a reset the first sequenced packet is never
        counted as lost, whatever its number. */
    lemma FirstSequenceNoLoss(sequence: int)
      requires Initial()
      ensures GapLoss(lastSequence, sequence) == 0
    {
    }
  }

  /** The loss rate is a percentage whenever losses do not outnumber the
      packets they are measured against. */
  lemma LossRateBounded(m: StreamMonitor, now: real)
    requires var total := if m.packetsSent > 0 then m.packetsSent else m.packetsReceived;
             m.packetsLost <= total
    ensures 0.0 <= m.GetStats(now).packetLossRate <= 100.0
  {
    var total := if m.packetsSent > 0 then m.packetsSent else m.packetsReceived;
    var s := m.GetStats(now);
    if total > 0 {
      assert s.packetLossRate * total as real == m.packetsLost as real * 100.0;
      assert s.packetLossRate * total as real <= 100.0 * total as real;
    }
  }
}
