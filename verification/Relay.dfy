/** Pairing the two endpoints of a ticket. */
module Broker {
  import opened Prelude
  import opened Crypto
  import opened Runs
  import opened Theorems
  import opened Protocol

  /** Sockets are named by numbers. */
  datatype Arrival = Arrival(role: EndpointRole, socket: nat)

  /** What the broker's receiver yields, in order. A list that ends is one where nothing more
      happens before the deadline. */
  datatype Reception = Arrives(arrival: Arrival) | SendersGone | Deadline

  datatype Outcome = Paired(host: nat, client: nat) | Refused(error: RelayError) | TimedOut

  /** `run_ticket_broker` up to the relay. */
  method RunTicketBroker(receptions: seq<Reception>) returns (outcome: Outcome)
    ensures outcome.Paired? <==>
      && |receptions| >= 2 && receptions[0].Arrives? && receptions[1].Arrives?
      && receptions[0].arrival.role != receptions[1].arrival.role
    ensures outcome.Paired? ==>
      && Arrives(Arrival(Host, outcome.host)) in receptions[..2]
      && Arrives(Arrival(Client, outcome.client)) in receptions[..2]
    ensures outcome == Refused(AlreadyClaimed) <==>
      && |receptions| >= 2 && receptions[0].Arrives? && receptions[1].Arrives?
      && receptions[0].arrival.role == receptions[1].arrival.role
    ensures outcome == Refused(PeerClosed) <==>
      || (|receptions| >= 1 && receptions[0].SendersGone?)
      || (|receptions| >= 2 && receptions[0].Arrives? && receptions[1].SendersGone?)
    ensures outcome.Refused? ==> outcome.error == AlreadyClaimed || outcome.error == PeerClosed
  {
    if |receptions| < 1 || receptions[0].Deadline? {
      return TimedOut;
    }
    if receptions[0].SendersGone? {
      return Refused(PeerClosed);
    }
    var first := receptions[0].arrival;
    if |receptions| < 2 || receptions[1].Deadline? {
      return TimedOut;
    }
    if receptions[1].SendersGone? {
      return Refused(PeerClosed);
    }
    var second := receptions[1].arrival;
    if first.role == second.role {
      return Refused(AlreadyClaimed);
    }
    if first.role == Host {
      return Paired(first.socket, second.socket);
    }
    return Paired(second.socket, first.socket);
  }

  /** Each arrival on a channel was sent by the holder of a claim granted on it, and a granted
      claim sends once. `picks` names the grant behind each reception. */
  ghost predicate SentByGrants(grants: seq<Grant>, channel: nat, receptions: seq<Reception>, picks: seq<nat>) {
    && |picks| == |receptions|
    && (forall k :: 0 <= k < |picks| && receptions[k].Arrives? ==>
          picks[k] < |grants| && grants[picks[k]] == Grant(channel, receptions[k].arrival.role))
    && (forall j, k :: 0 <= j < k < |picks| && receptions[j].Arrives? && receptions[k].Arrives? ==>
          picks[j] != picks[k])
  }

  function Arrived(receptions: seq<Reception>): (r: seq<Reception>)
    ensures forall x <- r :: x.Arrives?
  {
    if receptions == [] then []
    else (if receptions[0].Arrives? then [receptions[0]] else []) + Arrived(receptions[1..])
  }

  /** Two arrivals on one channel never have the same role, so the broker never refuses a pair
      as claimed twice. */
  lemma ArrivalsHaveDifferentRoles(cfg: Config, c: Primitives, s: System, channel: nat, receptions: seq<Reception>,
                                   picks: seq<nat>, j: nat, k: nat)
    requires Reachable(cfg, c, s) && SentByGrants(s.grants, channel, receptions, picks)
    requires j < k < |receptions| && receptions[j].Arrives? && receptions[k].Arrives?
    ensures receptions[j].arrival.role != receptions[k].arrival.role
  {
    hide Reachable;
    GrantsPerChannel(cfg, c, s, channel, [picks[j], picks[k]]);
  }

  /** At most two arrivals are ever sent on a channel, which is its capacity. */
  lemma ChannelNeverOverflows(cfg: Config, c: Primitives, s: System, channel: nat, receptions: seq<Reception>,
                              picks: seq<nat>)
    requires Reachable(cfg, c, s) && SentByGrants(s.grants, channel, receptions, picks)
    ensures |Arrived(receptions)| <= 2
  {
    hide Reachable;
    var at := ArrivalIndexes(receptions);
    GrantsPerChannel(cfg, c, s, channel, seq(|at|, k requires 0 <= k < |at| => picks[at[k]]));
  }

  lemma {:induction false} ArrivalIndexes(receptions: seq<Reception>) returns (at: seq<nat>)
    ensures |at| == |Arrived(receptions)|
    ensures forall k :: 0 <= k < |at| ==> at[k] < |receptions| && receptions[at[k]].Arrives?
    ensures forall j, k :: 0 <= j < k < |at| ==> at[j] < at[k]
  {
    if receptions == [] {
      at := [];
    } else {
      var rest := ArrivalIndexes(receptions[1..]);
      var shifted := seq(|rest|, k requires 0 <= k < |rest| => rest[k] + 1);
      at := (if receptions[0].Arrives? then [0] else []) + shifted;
    }
  }
}

/** Forwarding sealed frames between two paired endpoints. */
module Relay {
  import opened Prelude
  import opened Protocol

  const MAX_SEALED_ENVELOPE_BYTES := 8 * 1024 * 1024 + 128
  const HCE1: Bytes := [72, 67, 69, 49]

  predicate IsOpaqueEnvelope(b: Bytes) {
    17 + 16 + 44 <= |b| <= MAX_SEALED_ENVELOPE_BYTES && HCE1 <= b && b[4] == 1
  }

  /** What a socket's stream yields; the end of a list is the end of the stream. */
  datatype Item = Binary(bytes: Bytes) | Text | Ping | Pong | Close | Broken

  /** The frames a direction may forward: the binary frames before the first close, text,
      malformed frame or error. */
  function Forwardable(source: seq<Item>): seq<Bytes> {
    if source == [] then []
    else match source[0]
      case Binary(b) => if IsOpaqueEnvelope(b) then [b] + Forwardable(source[1..]) else []
      case Ping => Forwardable(source[1..])
      case Pong => Forwardable(source[1..])
      case _ => []
  }

  /** How a direction ends when every send succeeds. */
  function Ending(source: seq<Item>): Result<(), RelayError> {
    if source == [] then Success(())
    else match source[0]
      case Binary(b) => if IsOpaqueEnvelope(b) then Ending(source[1..]) else Failure(InvalidOpaqueEnvelope)
      case Ping => Ending(source[1..])
      case Pong => Ending(source[1..])
      case Close => Success(())
      case Text => Failure(InvalidOpaqueEnvelope)
      case Broken => Failure(PeerClosed)
  }

  /** What a sealed envelope is, byte by byte: "HCE1", version 1, and a bounded length. */
  lemma EnvelopeBytes(b: Bytes)
    ensures IsOpaqueEnvelope(b) <==> 77 <= |b| <= 8388736 && b[..5] == [72, 67, 69, 49, 1]
  {
    if IsOpaqueEnvelope(b) {
      assert b[..5] == b[..4] + [b[4]];
    } else if |b| >= 77 && b[..5] == [72, 67, 69, 49, 1] {
      assert b[..4] == b[..5][..4] && b[4] == b[..5][4];
    }
  }

  lemma {:induction false} ForwardableAreEnvelopes(source: seq<Item>)
    ensures forall b <- Forwardable(source) ::
              77 <= |b| <= 8388736 && b[..5] == [72, 67, 69, 49, 1] && Binary(b) in source
  {
    if source != [] {
      ForwardableAreEnvelopes(source[1..]);
      if source[0].Binary? {
        EnvelopeBytes(source[0].bytes);
      }
    }
  }

  /** The payloads of all binary frames, in order. */
  function Payloads(source: seq<Item>): seq<Bytes> {
    if source == [] then []
    else (if source[0].Binary? then [source[0].bytes] else []) + Payloads(source[1..])
  }

  /** A peer that sends only sealed frames, pings and pongs, and then closes or ends its stream,
      has all its frames forwarded, and the direction ends well. */
  lemma {:induction false} HonestStreamForwarded(source: seq<Item>, closes: bool)
    requires forall x <- source :: x.Ping? || x.Pong?
               || (x.Binary? && 77 <= |x.bytes| <= 8388736 && x.bytes[..5] == [72, 67, 69, 49, 1])
    ensures var all := source + if closes then [Close] else [];
      Forwardable(all) == Payloads(source) && Ending(all) == Success(())
  {
    var tail := if closes then [Close] else [];
    if source != [] {
      assert forall x <- source[1..] :: x in source;
      HonestStreamForwarded(source[1..], closes);
      assert (source + tail)[1..] == source[1..] + tail && (source + tail)[0] == source[0];
      if source[0].Binary? {
        EnvelopeBytes(source[0].bytes);
      }
    } else {
      assert source + tail == tail;
    }
  }

  // ---- Statistics ----

  function TotalBytes(frames: seq<Bytes>): nat {
    if frames == [] then 0 else TotalBytes(frames[..|frames| - 1]) + |frames[|frames| - 1]|
  }

  function Slowest(elapsed: seq<nat>): nat {
    if elapsed == [] then 0 else Max(Slowest(elapsed[..|elapsed| - 1]), elapsed[|elapsed| - 1])
  }

  function Saturate(x: nat): U64 {
    if x < U64_LIMIT then x else U64_LIMIT - 1
  }

  datatype Stats = Stats(frames: U64, bytes: U64, maxForwardUs: U64)

  /** The true counts, each capped at the largest `u64`. */
  function Summary(frames: seq<Bytes>, elapsed: seq<nat>): Stats {
    Stats(Saturate(|frames|), Saturate(TotalBytes(frames)), Saturate(Slowest(elapsed)))
  }

  /** One more send, added with saturating arithmetic. */
  function Plus(s: Stats, size: nat, elapsedUs: nat): Stats {
    Stats(SaturatingAdd(s.frames, 1), SaturatingAdd(s.bytes, size), Max(s.maxForwardUs, Saturate(elapsedUs)))
  }

  /** Saturating at every send gives the same as capping the true totals at the end. */
  lemma SummaryPlus(sent: seq<Bytes>, times: seq<nat>, frame: Bytes, elapsedUs: nat)
    ensures Summary(sent + [frame], times + [elapsedUs]) == Plus(Summary(sent, times), |frame|, elapsedUs)
  {
    assert (sent + [frame])[..|sent|] == sent && (times + [elapsedUs])[..|times|] == times;
  }

  class RelayForwardStats {
    var frames: U64
    var bytes: U64
    var maxForwardUs: U64

    function Value(): Stats
      reads this
    {
      Stats(frames, bytes, maxForwardUs)
    }

    constructor ()
      ensures Value() == Summary([], [])
    {
      frames, bytes, maxForwardUs := 0, 0, 0;
    }

    /** One recorded send keeps the totals exact up to saturation. */
    method Record(size: nat, elapsedUs: nat, ghost sent: seq<Bytes>, ghost times: seq<nat>, ghost frame: Bytes)
      requires Value() == Summary(sent, times) && size == |frame| < U64_LIMIT
      modifies this
      ensures Value() == Summary(sent + [frame], times + [elapsedUs])
    {
      SummaryPlus(sent, times, frame, elapsedUs);
      frames := SaturatingAdd(frames, 1);
      bytes := SaturatingAdd(bytes, size);
      maxForwardUs := Max(maxForwardUs, Saturate(elapsedUs));
    }
  }

  // ---- One direction, step by step ----

  /** Where a direction is suspended: waiting for its source, waiting for the sink to take a
      frame, or holding a frame the sink took and that is not recorded yet. */
  datatype Point =
    | Reading
    | Offering(frame: Bytes)
    | Taken(frame: Bytes)
    | Done(result: Result<(), RelayError>)
    | Cancelled

  datatype Direction = Direction(source: seq<Item>, next: nat, point: Point, delivered: seq<Bytes>, recorded: Stats,
                                 times: seq<nat>)

  function Start(source: seq<Item>): Direction {
    Direction(source, 0, Reading, [], Summary([], []), [])
  }

  /** The frame that the sink took is recorded, and the source is read on. */
  function Recorded(d: Direction, elapsedUs: nat): Direction
    requires d.point.Taken?
  {
    d.(point := Reading, next := d.next + 1, times := d.times + [elapsedUs],
       recorded := Plus(d.recorded, |d.point.frame|, elapsedUs))
  }

  /** One resumption of a direction. */
  ghost predicate Resumes(d: Direction, d': Direction) {
    match d.point
    case Reading =>
      if d.next >= |d.source| then d' == d.(point := Done(Success(())))
      else (match d.source[d.next]
            case Binary(b) =>
              d' == d.(point := if IsOpaqueEnvelope(b) then Offering(b) else Done(Failure(InvalidOpaqueEnvelope)))
            case Ping => d' == d.(next := d.next + 1)
            case Pong => d' == d.(next := d.next + 1)
            case Close => d' == d.(point := Done(Success(())))
            case Text => d' == d.(point := Done(Failure(InvalidOpaqueEnvelope)))
            case Broken => d' == d.(point := Done(Failure(PeerClosed))))
    case Offering(b) =>
      || d' == d.(point := Taken(b), delivered := d.delivered + [b])
      || d' == d.(point := Done(Failure(PeerClosed)))
    case Taken(b) =>
      || d' == d.(point := Done(Failure(PeerClosed)))
      || (exists us: nat :: d' == Recorded(d, us))
    case _ => false
  }

  ghost predicate DirectionRun(source: seq<Item>, trace: seq<Direction>) {
    && |trace| > 0 && trace[0] == Start(source)
    && (forall k {:trigger trace[k]} :: 0 <= k < |trace| - 1 ==> Resumes(trace[k], trace[k + 1]))
  }

  ghost function Last(trace: seq<Direction>): Direction
    requires |trace| > 0
  {
    trace[|trace| - 1]
  }

  lemma Begin(source: seq<Item>) returns (trace: seq<Direction>)
    ensures trace == [Start(source)] && DirectionRun(source, trace)
  {
    trace := [Start(source)];
  }

  lemma Resume(source: seq<Item>, trace: seq<Direction>, d: Direction) returns (more: seq<Direction>)
    requires |trace| > 0 && DirectionRun(source, trace) && Resumes(Last(trace), d)
    ensures |more| > 0 && DirectionRun(source, more) && Last(more) == d
  {
    hide Resumes;
    more := trace + [d];
  }

  /** The direction waits for its next item. */
  ghost predicate Awaits(source: seq<Item>, trace: seq<Direction>) {
    && |trace| > 0 && DirectionRun(source, trace)
    && Last(trace).source == source && Last(trace).point.Reading?
  }

  /** The result with which the next item ends the direction, if it does. */
  function EndsWith(source: seq<Item>, next: nat): Option<Result<(), RelayError>> {
    if next >= |source| then Some(Success(()))
    else match source[next]
      case Binary(b) => if IsOpaqueEnvelope(b) then None else Some(Failure(InvalidOpaqueEnvelope))
      case Ping => None
      case Pong => None
      case Close => Some(Success(()))
      case Text => Some(Failure(InvalidOpaqueEnvelope))
      case Broken => Some(Failure(PeerClosed))
  }

  lemma Finish(source: seq<Item>, trace: seq<Direction>, r: Result<(), RelayError>) returns (more: seq<Direction>)
    requires Awaits(source, trace) && EndsWith(source, Last(trace).next) == Some(r)
    ensures |more| > 0 && DirectionRun(source, more) && Last(more) == Last(trace).(point := Done(r))
  {
    hide IsOpaqueEnvelope, DirectionRun;
    more := Resume(source, trace, Last(trace).(point := Done(r)));
  }

  lemma Skip(source: seq<Item>, trace: seq<Direction>) returns (more: seq<Direction>)
    requires Awaits(source, trace) && Last(trace).next < |source|
    requires source[Last(trace).next] == Ping || source[Last(trace).next] == Pong
    ensures Awaits(source, more) && Last(more) == Last(trace).(next := Last(trace).next + 1)
  {
    hide DirectionRun;
    more := Resume(source, trace, Last(trace).(next := Last(trace).next + 1));
  }

  lemma Offer(source: seq<Item>, trace: seq<Direction>, b: Bytes) returns (more: seq<Direction>)
    requires Awaits(source, trace) && Last(trace).next < |source|
    requires source[Last(trace).next] == Binary(b) && IsOpaqueEnvelope(b)
    ensures |more| > 0 && DirectionRun(source, more) && Last(more) == Last(trace).(point := Offering(b))
  {
    hide IsOpaqueEnvelope, DirectionRun;
    more := Resume(source, trace, Last(trace).(point := Offering(b)));
  }

  lemma SendFails(source: seq<Item>, trace: seq<Direction>, b: Bytes) returns (more: seq<Direction>)
    requires Awaits(source, trace) && Last(trace).next < |source|
    requires source[Last(trace).next] == Binary(b) && IsOpaqueEnvelope(b)
    ensures |more| > 0 && DirectionRun(source, more) && Last(more) == Last(trace).(point := Done(Failure(PeerClosed)))
  {
    hide IsOpaqueEnvelope, DirectionRun;
    var offered := Offer(source, trace, b);
    more := Resume(source, offered, Last(trace).(point := Done(Failure(PeerClosed))));
  }

  lemma Send(source: seq<Item>, trace: seq<Direction>, b: Bytes, elapsedUs: nat) returns (more: seq<Direction>)
    requires Awaits(source, trace) && Last(trace).next < |source|
    requires source[Last(trace).next] == Binary(b) && IsOpaqueEnvelope(b)
    ensures Awaits(source, more)
    ensures var d := Last(trace);
      Last(more) == Direction(source, d.next + 1, Reading, d.delivered + [b], Plus(d.recorded, |b|, elapsedUs),
                              d.times + [elapsedUs])
  {
    hide IsOpaqueEnvelope, DirectionRun, Plus;
    var offered := Offer(source, trace, b);
    var d := Last(trace).(point := Taken(b), delivered := Last(trace).delivered + [b]);
    var taken := Resume(source, offered, d);
    more := Resume(source, taken, Recorded(d, elapsedUs));
  }

  // ---- One direction, run to its end ----

  /** The sink's answer to one send. */
  datatype Sending = Sent(elapsedUs: nat) | Failed

  /** How long the first `n` sends took. */
  function Elapsed(sink: nat -> Sending, n: nat): (times: seq<nat>)
    ensures |times| == n
  {
    if n == 0 then []
    else Elapsed(sink, n - 1) + [match sink(n - 1) case Sent(us) => us case Failed => 0]
  }

  lemma ForwardableStep(source: seq<Item>, i: nat)
    requires i < |source|
    ensures source[i..][1..] == source[i + 1..] && source[i..][0] == source[i]
  {
  }

  /** `forward_opaque`: the sink answers its k-th send with `sink(k)`. The loop takes the steps of
      a direction. */
  method ForwardOpaque(source: seq<Item>, sink: nat -> Sending)
    returns (delivered: seq<Bytes>, stats: RelayForwardStats, r: Result<(), RelayError>, ghost trace: seq<Direction>)
    ensures |trace| > 0 && DirectionRun(source, trace)
    ensures Last(trace).point == Done(r) && Last(trace).delivered == delivered && Last(trace).recorded == stats.Value()
    ensures delivered <= Forwardable(source)
    ensures forall k :: 0 <= k < |delivered| ==> sink(k).Sent?
    ensures stats.Value() == Summary(delivered, Elapsed(sink, |delivered|))
    ensures if |delivered| == |Forwardable(source)| then r == Ending(source)
            else r == Failure(PeerClosed) && sink(|delivered|).Failed?
  {
    hide Summary, Plus, DirectionRun, Resumes;
    stats := new RelayForwardStats();
    delivered := [];
    trace := Begin(source);
    for i := 0 to |source|
      invariant fresh(stats)
      invariant Forwardable(source) == delivered + Forwardable(source[i..])
      invariant Ending(source) == Ending(source[i..])
      invariant forall k :: 0 <= k < |delivered| ==> sink(k).Sent?
      invariant stats.Value() == Summary(delivered, Elapsed(sink, |delivered|))
      invariant Awaits(source, trace)
      invariant Last(trace)
             == Direction(source, i, Reading, delivered, stats.Value(), Elapsed(sink, |delivered|))
    {
      ForwardableStep(source, i);
      match source[i] {
        case Binary(bytes) =>
          if !IsOpaqueEnvelope(bytes) {
            trace := Finish(source, trace, Failure(InvalidOpaqueEnvelope));
            return delivered, stats, Failure(InvalidOpaqueEnvelope), trace;
          }
          var sending := sink(|delivered|);
          if sending.Failed? {
            trace := SendFails(source, trace, bytes);
            return delivered, stats, Failure(PeerClosed), trace;
          }
          SummaryPlus(delivered, Elapsed(sink, |delivered|), bytes, sending.elapsedUs);
          stats.Record(|bytes|, sending.elapsedUs, delivered, Elapsed(sink, |delivered|), bytes);
          trace := Send(source, trace, bytes, sending.elapsedUs);
          delivered := delivered + [bytes];
        case Close =>
          trace := Finish(source, trace, Success(()));
          return delivered, stats, Success(()), trace;
        case Ping =>
          trace := Skip(source, trace);
        case Pong =>
          trace := Skip(source, trace);
        case Text =>
          trace := Finish(source, trace, Failure(InvalidOpaqueEnvelope));
          return delivered, stats, Failure(InvalidOpaqueEnvelope), trace;
        case Broken =>
          trace := Finish(source, trace, Failure(PeerClosed));
          return delivered, stats, Failure(PeerClosed), trace;
      }
    }
    trace := Finish(source, trace, Success(()));
    return delivered, stats, Success(()), trace;
  }

  /** What `ForwardOpaque` delivers are sealed frames that the source sent. */
  lemma DeliveredFramesAreSealed(source: seq<Item>, delivered: seq<Bytes>)
    requires delivered <= Forwardable(source)
    ensures forall b <- delivered :: 77 <= |b| <= 8388736 && b[..5] == [72, 67, 69, 49, 1] && Binary(b) in source
  {
    ForwardableAreEnvelopes(source);
    assert forall b <- delivered :: b in Forwardable(source);
  }

  /** And an honest stream is delivered whole, with success, when no send fails. */
  lemma HonestStreamDelivered(honest: seq<Item>, closes: bool, sink: nat -> Sending, delivered: seq<Bytes>,
                              r: Result<(), RelayError>)
    requires forall x <- honest :: x.Ping? || x.Pong?
               || (x.Binary? && 77 <= |x.bytes| <= 8388736 && x.bytes[..5] == [72, 67, 69, 49, 1])
    requires forall k: nat :: sink(k).Sent?
    requires var source := honest + if closes then [Close] else [];
      && delivered <= Forwardable(source)
      && if |delivered| == |Forwardable(source)| then r == Ending(source)
         else r == Failure(PeerClosed) && sink(|delivered|).Failed?
    ensures delivered == Payloads(honest) && r == Success(())
  {
    HonestStreamForwarded(honest, closes);
  }

  // ---- Both directions, interleaved and cancelled ----

  datatype Session = Session(hostToClient: Direction, clientToHost: Direction)

  predicate Fails(d: Direction) {
    d.point.Done? && d.point.result.Failure?
  }

  predicate Running(d: Direction) {
    !d.point.Done? && !d.point.Cancelled?
  }

  /** `try_join!`: either direction resumes, or the failure of one cancels the other. */
  ghost predicate SessionStep(s: Session, s': Session) {
    || (Resumes(s.hostToClient, s'.hostToClient) && s'.clientToHost == s.clientToHost)
    || (Resumes(s.clientToHost, s'.clientToHost) && s'.hostToClient == s.hostToClient)
    || (Fails(s.hostToClient) && Running(s.clientToHost)
        && s' == s.(clientToHost := s.clientToHost.(point := Cancelled)))
    || (Fails(s.clientToHost) && Running(s.hostToClient)
        && s' == s.(hostToClient := s.hostToClient.(point := Cancelled)))
  }

  ghost predicate SessionRun(host: seq<Item>, client: seq<Item>, states: seq<Session>) {
    && |states| > 0
    && states[0] == Session(Start(host), Start(client))
    && (forall i :: 0 <= i < |states| - 1 ==> SessionStep(states[i], states[i + 1]))
  }

  /** The frames recorded in the statistics: all delivered ones, but for one in flight. */
  ghost predicate RecordedInv(d: Direction, sent: nat) {
    && sent <= |d.delivered|
    && d.recorded == Summary(d.delivered[..sent], d.times)
  }

  /** The direction has forwarded all it may, recorded it, and ended as its source calls for. */
  ghost predicate Complete(d: Direction) {
    && d.delivered == Forwardable(d.source)
    && d.point == Done(Ending(d.source))
    && d.recorded == Summary(d.delivered, d.times)
  }

  ghost predicate DirectionInv(d: Direction) {
    && d.next <= |d.source|
    && match d.point
       case Reading =>
         && Forwardable(d.source) == d.delivered + Forwardable(d.source[d.next..])
         && Ending(d.source) == Ending(d.source[d.next..])
         && RecordedInv(d, |d.delivered|)
       case Offering(b) =>
         && d.next < |d.source| && d.source[d.next] == Binary(b) && IsOpaqueEnvelope(b)
         && Forwardable(d.source) == d.delivered + Forwardable(d.source[d.next..])
         && Ending(d.source) == Ending(d.source[d.next..])
         && RecordedInv(d, |d.delivered|)
       case Taken(b) =>
         && d.next < |d.source| && d.delivered != [] && d.delivered[|d.delivered| - 1] == b
         && Forwardable(d.source) == d.delivered + Forwardable(d.source[d.next + 1..])
         && Ending(d.source) == Ending(d.source[d.next + 1..])
         && RecordedInv(d, |d.delivered| - 1)
       case _ =>
         && d.delivered <= Forwardable(d.source)
         && (RecordedInv(d, |d.delivered|) || (d.delivered != [] && RecordedInv(d, |d.delivered| - 1)))
         && (d.point.Done? && d.point.result != Failure(PeerClosed) ==> Complete(d))
  }

  lemma ReadingKeeps(d: Direction, d': Direction)
    requires DirectionInv(d) && d.point.Reading? && Resumes(d, d')
    ensures DirectionInv(d') && d'.source == d.source
  {
    hide Summary;
    assert d.delivered[..|d.delivered|] == d.delivered;
    if d.next < |d.source| {
      ForwardableStep(d.source, d.next);
    }
  }

  lemma OfferingKeeps(d: Direction, d': Direction)
    requires DirectionInv(d) && d.point.Offering? && Resumes(d, d')
    ensures DirectionInv(d') && d'.source == d.source
  {
    ForwardableStep(d.source, d.next);
    hide Summary;
    assert (d.delivered + [d.point.frame])[..|d.delivered|] == d.delivered == d.delivered[..|d.delivered|];
  }

  lemma TakenKeeps(d: Direction, d': Direction)
    requires DirectionInv(d) && d.point.Taken? && Resumes(d, d')
    ensures DirectionInv(d') && d'.source == d.source
  {
    hide Forwardable, Ending, Summary, Plus;
    var sent := d.delivered[..|d.delivered| - 1];
    assert d.delivered == sent + [d.point.frame] && d.delivered[..|d.delivered|] == d.delivered;
    if d'.point.Reading? {
      var us: nat :| d' == Recorded(d, us);
      SummaryPlus(sent, d.times, d.point.frame, us);
    }
  }

  lemma ResumeKeeps(d: Direction, d': Direction)
    requires DirectionInv(d) && Resumes(d, d')
    ensures DirectionInv(d') && d'.source == d.source
  {
    match d.point
    case Reading => ReadingKeeps(d, d');
    case Offering(_) => OfferingKeeps(d, d');
    case Taken(_) => TakenKeeps(d, d');
    case _ =>
  }

  lemma CancelKeeps(d: Direction)
    requires DirectionInv(d)
    ensures DirectionInv(d.(point := Cancelled))
  {
  }

  lemma {:induction false} RunKeepsDirections(host: seq<Item>, client: seq<Item>, states: seq<Session>, i: nat)
    requires SessionRun(host, client, states) && i < |states|
    ensures DirectionInv(states[i].hostToClient) && states[i].hostToClient.source == host
    ensures DirectionInv(states[i].clientToHost) && states[i].clientToHost.source == client
  {
    hide Resumes, DirectionInv;
    if i == 0 {
      StartKeeps(host);
      StartKeeps(client);
    } else {
      RunKeepsDirections(host, client, states, i - 1);
      var s, s' := states[i - 1], states[i];
      assert SessionStep(s, s');
      CancelKeeps(s.hostToClient);
      CancelKeeps(s.clientToHost);
      if Resumes(s.hostToClient, s'.hostToClient) {
        ResumeKeeps(s.hostToClient, s'.hostToClient);
      }
      if Resumes(s.clientToHost, s'.clientToHost) {
        ResumeKeeps(s.clientToHost, s'.clientToHost);
      }
    }
  }

  lemma StartKeeps(source: seq<Item>)
    ensures DirectionInv(Start(source))
  {
    assert source[0..] == source;
  }

  /** Under any interleaving and cancellation, each peer receives, in order and unchanged, a
      prefix of what the other may forward, all of it sealed envelopes; and the statistics are
      the capped true counts of the recorded sends, which miss at most one frame in flight. */
  lemma RelayForwardsAPrefix(host: seq<Item>, client: seq<Item>, states: seq<Session>, i: nat)
    requires SessionRun(host, client, states) && i < |states|
    ensures states[i].hostToClient.delivered <= Forwardable(host)
    ensures states[i].clientToHost.delivered <= Forwardable(client)
    ensures forall b :: b in states[i].hostToClient.delivered || b in states[i].clientToHost.delivered ==>
              77 <= |b| <= 8388736 && b[..5] == [72, 67, 69, 49, 1]
    ensures forall d | d == states[i].hostToClient || d == states[i].clientToHost ::
              RecordedInv(d, |d.delivered|) || (d.delivered != [] && RecordedInv(d, |d.delivered| - 1))
  {
    RunKeepsDirections(host, client, states, i);
    ForwardableAreEnvelopes(host);
    ForwardableAreEnvelopes(client);
    hide IsOpaqueEnvelope, SessionRun, Summary;
    assert states[i].hostToClient.delivered <= Forwardable(host);
    assert states[i].clientToHost.delivered <= Forwardable(client);
  }

  /** A direction that ends by itself ends in one of two ways: complete, or because its source
      or its sink failed. */
  lemma EndingIsFaithful(d: Direction, d': Direction)
    requires DirectionInv(d) && Resumes(d, d') && d'.point.Done?
    ensures d.point.Reading? ==> Complete(d')
    ensures !d.point.Reading? ==> (d.point.Offering? || d.point.Taken?) && d'.point.result == Failure(PeerClosed)
  {
    if d.next < |d.source| {
      ForwardableStep(d.source, d.next);
    }
    assert d.delivered[..|d.delivered|] == d.delivered;
  }

  /** In every run a direction that ended, and not for a failed peer, is complete: one that
      reports success has delivered and recorded every frame of a source that closed properly,
      and one that reports an invalid envelope has stopped exactly there. */
  lemma EndedDirectionsAreComplete(host: seq<Item>, client: seq<Item>, states: seq<Session>, i: nat)
    requires SessionRun(host, client, states) && i < |states|
    ensures forall d | d == states[i].hostToClient || d == states[i].clientToHost ::
              d.point.Done? && d.point.result != Failure(PeerClosed) ==> Complete(d)
    ensures states[i].hostToClient.point == Done(Success(())) ==>
      states[i].hostToClient.delivered == Forwardable(host) && Ending(host) == Success(())
    ensures states[i].clientToHost.point == Done(Success(())) ==>
      states[i].clientToHost.delivered == Forwardable(client) && Ending(client) == Success(())
  {
    RunKeepsDirections(host, client, states, i);
    hide SessionRun, Forwardable, Ending, Summary;
  }
}
