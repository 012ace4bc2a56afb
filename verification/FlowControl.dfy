/**
 Receive flow control of the HTTP/2 client (crates/micro-h2/src/conn.rs), with
 the peer and the network between as part of the system: section 6.9 of
 RFC 7540. A stream present in the table is open; closing one removes it.
 */
module FlowControl {
  import opened Common

  const WINDOW := 0x10_0000
  const DEFAULT_WINDOW := 65_535
  const THRESHOLD := 0x8_0000
  const UPDATE_LEN := 13
  const MAX_STREAMS := 4
  const MAX_LENGTH := 0xFF_FFFF

  datatype Stream = Stream(id: nat, consumed: nat)

  /** A `WINDOW_UPDATE`; stream zero is the connection. */
  datatype Update = Update(stream: nat, increment: nat)

  datatype Conn = Conn(streams: seq<Stream>, consumed: nat, nextStream: nat)

  const FRESH := Conn([], 0, 1)

  function Find(streams: seq<Stream>, id: nat): (r: Option<nat>)
    ensures r.Some? ==> r.value < |streams| && streams[r.value].id == id
                        && forall k :: 0 <= k < r.value ==> streams[k].id != id
    ensures r.None? ==> forall k :: 0 <= k < |streams| ==> streams[k].id != id
  {
    if streams == [] then None
    else if streams[0].id == id then Some(0)
    else
      var r := Find(streams[1..], id);
      if r.Some? then Some(r.value + 1) else None
  }

  /** Add to a held-back count and say how much to give back, if it is time. */
  function Hold(consumed: nat, length: nat): (r: (nat, nat))
    ensures r.0 + r.1 == consumed + length
    ensures consumed < THRESHOLD ==> r.0 < THRESHOLD
    ensures r.1 == 0 || (r.0 == 0 && r.1 >= THRESHOLD)
  {
    if consumed + length >= THRESHOLD then (0, consumed + length) else (consumed + length, 0)
  }

  function Updates(stream: nat, increment: nat): seq<Update> {
    if increment > 0 then [Update(stream, increment)] else []
  }

  /** `credit`, when what it writes fits. */
  function Credit(c: Conn, stream: nat, length: nat): (r: (Conn, seq<Update>))
    ensures |r.1| <= 2
  {
    if length == 0 then (c, [])
    else
      var (held, back) := Hold(c.consumed, length);
      var k := Find(c.streams, stream);
      if k.None? then (c.(consumed := held), Updates(0, back))
      else
        var (heldHere, backHere) := Hold(c.streams[k.value].consumed, length);
        (Conn(c.streams[k.value := Stream(stream, heldHere)], held, c.nextStream),
         Updates(0, back) + Updates(stream, backHere))
  }

  /** What `credit` leaves behind when an update does not fit: the bytes counted, the update still owed. */
  function Refused(c: Conn, stream: nat, length: nat, room: nat): Conn {
    var (held, back) := Hold(c.consumed, length);
    var k := Find(c.streams, stream);
    if (back > 0 && room < UPDATE_LEN) || k.None? then c.(consumed := c.consumed + length)
    else Conn(c.streams[k.value := Stream(stream, c.streams[k.value].consumed + length)], held, c.nextStream)
  }

  function Close(c: Conn, stream: nat): Conn {
    var k := Find(c.streams, stream);
    if k.None? then c else c.(streams := c.streams[..k.value] + c.streams[k.value + 1..])
  }

  function Opened(c: Conn): Conn {
    Conn(c.streams + [Stream(c.nextStream, 0)], c.consumed, c.nextStream + 2)
  }

  class Connection {
    var streams: seq<Stream>
    var consumed: nat
    var nextStream: nat

    function View(): Conn
      reads this
    {
      Conn(streams, consumed, nextStream)
    }

    constructor ()
      ensures View() == FRESH
    {
      streams, consumed, nextStream := [], 0, 1;
    }

    /** `credit`: the updates owed, written into a buffer with `room` bytes left. */
    method CreditFor(stream: nat, length: nat, room: nat) returns (r: Result<seq<Update>, ()>)
      requires consumed < THRESHOLD && length <= MAX_LENGTH
      requires forall k :: 0 <= k < |streams| ==> streams[k].consumed < THRESHOLD
      modifies this
      ensures var (after, updates) := Credit(old(View()), stream, length);
              && (r.Ok? <==> UPDATE_LEN * |updates| <= room)
              && (r.Ok? ==> View() == after && r.value == updates)
              && (r.Err? ==> View() == Refused(old(View()), stream, length, room))
    {
      if length == 0 {
        return Ok([]);
      }
      var updates: seq<Update> := [];
      consumed := consumed + length;
      assert consumed < 0x1_0000_0000;
      if consumed >= THRESHOLD {
        if room < UPDATE_LEN {
          return Err(());
        }
        updates := [Update(0, consumed)];
        consumed := 0;
      }
      var k := 0;
      while k < |streams| && streams[k].id != stream
        invariant 0 <= k <= |streams| && streams == old(streams) && nextStream == old(nextStream)
        invariant consumed == Hold(old(consumed), length).0
        invariant forall i :: 0 <= i < k ==> streams[i].id != stream
      {
        k := k + 1;
      }
      if k < |streams| {
        assert Find(streams, stream) == Some(k);
        var here := streams[k].consumed + length;
        streams := streams[k := Stream(stream, here)];
        if here >= THRESHOLD {
          if room < UPDATE_LEN * |updates| + UPDATE_LEN {
            return Err(());
          }
          updates := updates + [Update(stream, here)];
          streams := streams[k := Stream(stream, 0)];
        }
      } else {
        assert Find(streams, stream) == None;
      }
      return Ok(updates);
    }

    /** The table's part of `request`: the next odd id, or a refusal when four streams are open. */
    method OpenStream() returns (r: Result<nat, ()>)
      modifies this
      ensures r.Ok? <==> |old(streams)| < MAX_STREAMS
      ensures View() == if r.Ok? then Opened(old(View())) else old(View())
      ensures r.Ok? ==> r.value == old(nextStream)
    {
      if |streams| >= MAX_STREAMS {
        return Err(());
      }
      r := Ok(nextStream);
      streams := streams + [Stream(nextStream, 0)];
      nextStream := nextStream + 2;
    }

    /** The flow-control part of `recv`: data is credited, and an ending frame closes its stream. */
    method ReceiveFrame(f: Frame, room: nat) returns (r: Result<seq<Update>, ()>)
      requires consumed < THRESHOLD && (f.Data? ==> f.length <= MAX_LENGTH) && room >= 2 * UPDATE_LEN
      requires forall k :: 0 <= k < |streams| ==> streams[k].consumed < THRESHOLD
      modifies this
      ensures r == Ok(Receive(old(View()), f).1) && View() == Receive(old(View()), f).0
    {
      match f {
        case Data(stream, length, end) =>
          r := CreditFor(stream, length, room);
          if end {
            CloseStream(stream);
          }
        case Closing(stream) =>
          CloseStream(stream);
          r := Ok([]);
      }
    }

    method CloseStream(stream: nat)
      modifies this
      ensures View() == Close(old(View()), stream)
    {
      var k := Find(streams, stream);
      if k.Some? {
        streams := streams[..k.value] + streams[k.value + 1..];
      }
    }
  }

  // ---------------------------------------------------------------------
  // The connection, the peer and the network.

  datatype Frame = Data(stream: nat, length: nat, end: bool) | Closing(stream: nat)

  /** `wire` runs from the peer to us and `back` the other way, both in order. The
      peer's windows are what it believes it may still send. */
  datatype System = System(
    conn: Conn, window: int, windows: map<nat, int>, wire: seq<Frame>, back: seq<Update>)

  /** `start` raises the connection window by the difference to the default. */
  function Start(): System {
    System(FRESH, DEFAULT_WINDOW + (WINDOW - DEFAULT_WINDOW), map[], [], [])
  }

  datatype Event =
    | Request
    | Send(stream: nat, length: nat, end: bool)
    | Shut(stream: nat)
    | Deliver
    | Absorb

  /** What a compliant peer and a reliable network can do next. */
  predicate Enabled(s: System, e: Event) {
    match e
    case Request => |s.conn.streams| < MAX_STREAMS
    case Send(stream, length, _) =>
      && stream in s.windows && length <= MAX_LENGTH && length <= s.window && length <= s.windows[stream]
    case Shut(stream) => stream in s.windows
    case Deliver => s.wire != []
    case Absorb => s.back != []
  }

  function Receive(c: Conn, f: Frame): (r: (Conn, seq<Update>)) {
    match f
    case Data(stream, length, end) =>
      var (after, updates) := Credit(c, stream, length);
      (if end then Close(after, stream) else after, updates)
    case Closing(stream) => (Close(c, stream), [])
  }

  function Next(s: System, e: Event): System
    requires Enabled(s, e)
  {
    match e
    case Request =>
      s.(conn := Opened(s.conn), windows := s.windows[s.conn.nextStream := WINDOW])
    case Send(stream, length, end) =>
      var left := s.windows[stream] - length;
      s.(window := s.window - length,
         windows := if end then s.windows - {stream} else s.windows[stream := left],
         wire := s.wire + [Data(stream, length, end)])
    case Shut(stream) => s.(windows := s.windows - {stream}, wire := s.wire + [Closing(stream)])
    case Deliver =>
      var (conn, updates) := Receive(s.conn, s.wire[0]);
      s.(conn := conn, wire := s.wire[1..], back := s.back + updates)
    case Absorb =>
      var u := s.back[0];
      var s := s.(back := s.back[1..]);
      if u.stream == 0 then s.(window := s.window + u.increment)
      else if u.stream in s.windows then s.(windows := s.windows[u.stream := s.windows[u.stream] + u.increment])
      else s
  }

  // ---------------------------------------------------------------------
  // Conservation.

  function LengthOn(f: Frame, stream: nat): nat {
    if f.Data? && (stream == 0 || f.stream == stream) then f.length else 0
  }

  /** Bytes on their way to us, on one stream or (zero) on all. */
  function InFlight(wire: seq<Frame>, stream: nat): nat {
    if wire == [] then 0 else LengthOn(wire[0], stream) + InFlight(wire[1..], stream)
  }

  function IncrementOn(u: Update, stream: nat): nat {
    if u.stream == stream then u.increment else 0
  }

  /** Credit on its way to the peer. */
  function Returning(back: seq<Update>, stream: nat): nat {
    if back == [] then 0 else IncrementOn(back[0], stream) + Returning(back[1..], stream)
  }

  lemma {:induction false} InFlightAppend(wire: seq<Frame>, f: Frame, stream: nat)
    ensures InFlight(wire + [f], stream) == InFlight(wire, stream) + LengthOn(f, stream)
  {
    if wire == [] {
      assert wire + [f] == [f];
    } else {
      InFlightAppend(wire[1..], f, stream);
      assert (wire + [f])[1..] == wire[1..] + [f];
    }
  }

  lemma {:induction false} ReturningAppend(back: seq<Update>, more: seq<Update>, stream: nat)
    ensures Returning(back + more, stream) == Returning(back, stream) + Returning(more, stream)
  {
    if back == [] {
      assert back + more == more;
    } else {
      ReturningAppend(back[1..], more, stream);
      assert (back + more)[1..] == back[1..] + more;
    }
  }

  predicate Ends(f: Frame, stream: nat) {
    f.stream == stream && (f.Data? ==> f.end)
  }

  /** The stream table and the held-back counts, as every call leaves them. */
  predicate Tidy(c: Conn) {
    && c.nextStream > 0 && c.consumed < THRESHOLD
    && (forall k :: 0 <= k < |c.streams| ==> 0 < c.streams[k].id < c.nextStream && c.streams[k].consumed < THRESHOLD)
    && (forall j, k :: 0 <= j < k < |c.streams| ==> c.streams[j].id != c.streams[k].id)
  }

  predicate Known(c: Conn, id: nat) {
    Find(c.streams, id).Some?
  }

  function Held(c: Conn, id: nat): nat
    requires Known(c, id)
  {
    c.streams[Find(c.streams, id).value].consumed
  }

  /** The books of one stream the peer may still send on. */
  ghost predicate StreamBalanced(s: System, id: nat) {
    && 0 < id < s.conn.nextStream && id in s.windows && s.windows[id] >= 0
    && Known(s.conn, id)
    && s.windows[id] + InFlight(s.wire, id) + Held(s.conn, id) + Returning(s.back, id) == WINDOW
    && (forall k :: 0 <= k < |s.wire| ==> !Ends(s.wire[k], id))
  }

  /** What is in transit names streams that exist or did. */
  predicate TransitOk(s: System) {
    && (forall k :: 0 <= k < |s.wire| ==> 0 < s.wire[k].stream < s.conn.nextStream)
    && (forall k :: 0 <= k < |s.back| ==> s.back[k].stream < s.conn.nextStream)
  }

  /** Every byte of the window is with the peer, on the wire, held back or on its way back. */
  ghost predicate Balanced(s: System) {
    && Tidy(s.conn) && TransitOk(s)
    && s.window >= 0
    && s.window + InFlight(s.wire, 0) + s.conn.consumed + Returning(s.back, 0) == WINDOW
    && (forall id :: id in s.windows ==> StreamBalanced(s, id))
  }

  lemma {:induction false} NoFrames(wire: seq<Frame>, id: nat)
    requires id > 0 && forall k :: 0 <= k < |wire| ==> wire[k].stream != id
    ensures InFlight(wire, id) == 0
  {
    if wire != [] {
      NoFrames(wire[1..], id);
    }
  }

  lemma {:induction false} NoUpdates(back: seq<Update>, id: nat)
    requires forall k :: 0 <= k < |back| ==> back[k].stream != id
    ensures Returning(back, id) == 0
  {
    if back != [] {
      NoUpdates(back[1..], id);
    }
  }

  /** In a tidy table the entry at `k` is the one found under its id. */
  lemma FindUnique(c: Conn, k: nat)
    requires Tidy(c) && k < |c.streams|
    ensures Find(c.streams, c.streams[k].id) == Some(k)
  {
  }

  lemma RequestKeeps(s: System)
    requires Balanced(s) && Enabled(s, Request)
    ensures Balanced(Next(s, Request))
  {
    hide InFlight, Returning, Find;
    var t := Next(s, Request);
    var n, id := |s.conn.streams|, s.conn.nextStream;
    NoFrames(s.wire, id);
    NoUpdates(s.back, id);
    FindUnique(t.conn, n);
    forall x | x in t.windows ensures StreamBalanced(t, x) {
      if x != id {
        assert StreamBalanced(s, x);
        FindUnique(t.conn, Find(s.conn.streams, x).value);
      }
    }
  }

  lemma SendKeeps(s: System, e: Event)
    requires Balanced(s) && Enabled(s, e) && (e.Send? || e.Shut?)
    ensures Balanced(Next(s, e))
  {
    hide InFlight, Returning, Find;
    var t := Next(s, e);
    var f := if e.Send? then Data(e.stream, e.length, e.end) else Closing(e.stream);
    assert t.wire == s.wire + [f];
    assert StreamBalanced(s, e.stream);
    InFlightAppend(s.wire, f, 0);
    forall x | x in t.windows ensures StreamBalanced(t, x) {
      assert StreamBalanced(s, x);
      InFlightAppend(s.wire, f, x);
    }
  }

  lemma AbsorbKeeps(s: System)
    requires Balanced(s) && Enabled(s, Absorb)
    ensures Balanced(Next(s, Absorb))
  {
    hide InFlight, Find, Tidy, Held, Known;
    var t := Next(s, Absorb);
    var u := s.back[0];
    forall x | x in t.windows ensures StreamBalanced(t, x) {
      assert StreamBalanced(s, x);
      assert Returning(s.back, x) == IncrementOn(u, x) + Returning(t.back, x);
    }
  }

  lemma OneUpdate(stream: nat, increment: nat, id: nat)
    ensures Returning(Updates(stream, increment), id) == if stream == id then increment else 0
  {
    var us := Updates(stream, increment);
    if us != [] {
      assert us[1..] == [];
    }
  }

  /** What crediting does to the connection and to the table. */
  lemma CreditTidy(c: Conn, stream: nat, length: nat)
    requires Tidy(c) && 0 < stream < c.nextStream
    ensures var (after, updates) := Credit(c, stream, length);
            && Tidy(after) && after.nextStream == c.nextStream
            && after.consumed + Returning(updates, 0) == c.consumed + length
            && (forall k :: 0 <= k < |updates| ==> updates[k].stream < c.nextStream)
  {
    hide Returning;
    var back := Hold(c.consumed, length).1;
    OneUpdate(0, back, 0);
    NoUpdates([], 0);
    var k := Find(c.streams, stream);
    if k.Some? {
      var backHere := Hold(c.streams[k.value].consumed, length).1;
      OneUpdate(stream, backHere, 0);
      ReturningAppend(Updates(0, back), Updates(stream, backHere), 0);
    }
  }

  /** What crediting does to the books of one stream. */
  lemma CreditBooks(c: Conn, stream: nat, length: nat, id: nat)
    requires Tidy(c) && 0 < stream < c.nextStream && id > 0 && Known(c, id)
    ensures var (after, updates) := Credit(c, stream, length);
            && Known(after, id)
            && Held(after, id) + Returning(updates, id) == Held(c, id) + if stream == id then length else 0
  {
    hide Returning;
    CreditTidy(c, stream, length);
    var (after, updates) := Credit(c, stream, length);
    FindUnique(after, Find(c.streams, id).value);
    NoUpdates([], id);
    var back := Hold(c.consumed, length).1;
    OneUpdate(0, back, id);
    var k := Find(c.streams, stream);
    if k.Some? {
      var backHere := Hold(c.streams[k.value].consumed, length).1;
      OneUpdate(stream, backHere, id);
      ReturningAppend(Updates(0, back), Updates(stream, backHere), id);
    }
  }

  lemma CloseTidy(c: Conn, stream: nat)
    requires Tidy(c)
    ensures Tidy(Close(c, stream)) && Close(c, stream).nextStream == c.nextStream
    ensures Close(c, stream).consumed == c.consumed
  {
    var gone, after := Find(c.streams, stream), Close(c, stream);
    if gone.Some? {
      forall j | 0 <= j < |after.streams|
        ensures after.streams[j] == c.streams[if j < gone.value then j else j + 1]
      {
      }
    }
  }

  lemma CloseBooks(c: Conn, stream: nat, id: nat)
    requires Tidy(c) && id != stream && Known(c, id)
    ensures var after := Close(c, stream);
            Known(after, id) && Held(after, id) == Held(c, id)
  {
    CloseTidy(c, stream);
    var gone := Find(c.streams, stream);
    if gone.Some? {
      var k := Find(c.streams, id).value;
      FindUnique(Close(c, stream), if k < gone.value then k else k - 1);
    }
  }

  /** The connection's own books, and the shape of the stream table. */
  lemma ReceiveTidy(c: Conn, f: Frame)
    requires Tidy(c) && 0 < f.stream < c.nextStream
    ensures var (after, updates) := Receive(c, f);
            && Tidy(after) && after.nextStream == c.nextStream
            && after.consumed + Returning(updates, 0) == c.consumed + LengthOn(f, 0)
            && (forall k :: 0 <= k < |updates| ==> updates[k].stream < c.nextStream)
  {
    hide Returning, Find, Credit, Tidy;
    NoUpdates([], 0);
    if f.Data? {
      CreditTidy(c, f.stream, f.length);
      CloseTidy(Credit(c, f.stream, f.length).0, f.stream);
    } else {
      CloseTidy(c, f.stream);
    }
  }

  /** Delivery: the bytes leave the wire and are held back or returned. */
  lemma ReceiveBooks(c: Conn, f: Frame, id: nat)
    requires Tidy(c) && 0 < f.stream < c.nextStream && id > 0 && Known(c, id) && !Ends(f, id)
    ensures var (after, updates) := Receive(c, f);
            && Known(after, id)
            && Held(after, id) + Returning(updates, id) == Held(c, id) + LengthOn(f, id)
  {
    hide Returning, Find, Credit, Tidy, Held, Known, Close;
    NoUpdates([], id);
    if f.Data? {
      CreditTidy(c, f.stream, f.length);
      CreditBooks(c, f.stream, f.length, id);
      if f.end {
        CloseBooks(Credit(c, f.stream, f.length).0, f.stream, id);
      }
    } else {
      CloseBooks(c, f.stream, id);
    }
  }

  lemma DeliverKeeps(s: System)
    requires Balanced(s) && Enabled(s, Deliver)
    ensures Balanced(Next(s, Deliver))
  {
    hide Returning, Find, Receive, Tidy, Held, Known;
    var t := Next(s, Deliver);
    var f := s.wire[0];
    var (conn, updates) := Receive(s.conn, f);
    ReceiveTidy(s.conn, f);
    ReturningAppend(s.back, updates, 0);
    forall x | x in t.windows ensures StreamBalanced(t, x) {
      assert StreamBalanced(s, x);
      ReceiveBooks(s.conn, f, x);
      ReturningAppend(s.back, updates, x);
    }
  }

  lemma NextKeeps(s: System, e: Event)
    requires Balanced(s) && Enabled(s, e)
    ensures Balanced(Next(s, e))
  {
    hide Balanced, Next;
    match e {
      case Request => RequestKeeps(s);
      case Send(_, _, _) => SendKeeps(s, e);
      case Shut(_) => SendKeeps(s, e);
      case Deliver => DeliverKeeps(s);
      case Absorb => AbsorbKeeps(s);
    }
  }

  /** The system after a run; events that are not enabled do nothing. */
  function Run(events: seq<Event>): System {
    if events == [] then Start()
    else
      var n := |events| - 1;
      var s := Run(events[..n]);
      if Enabled(s, events[n]) then Next(s, events[n]) else s
  }

  /** Credit is conserved in every run, for the connection and for each stream still open at the peer. */
  lemma {:induction false} AlwaysBalanced(events: seq<Event>)
    ensures Balanced(Run(events))
  {
    if events != [] {
      var n := |events| - 1;
      AlwaysBalanced(events[..n]);
      var s := Run(events[..n]);
      if Enabled(s, events[n]) {
        NextKeeps(s, events[n]);
      }
    }
  }

  /**
   No transfer ever stalls: whenever nothing is in transit, the peer may send
   more than half a megabyte on the connection and on every stream it has open.
   */
  lemma NeverStalls(events: seq<Event>)
    ensures var s := Run(events);
            s.wire == [] && s.back == [] ==>
              && s.window > THRESHOLD
              && forall id :: id in s.windows ==> s.windows[id] > THRESHOLD && Enabled(s, Send(id, THRESHOLD, false))
  {
    AlwaysBalanced(events);
    var s := Run(events);
    forall id | id in s.windows && s.wire == [] && s.back == [] ensures s.windows[id] > THRESHOLD {
      assert StreamBalanced(s, id);
    }
  }

  /** No window ever exceeds what was advertised, so none can overflow. */
  lemma WindowsBounded(events: seq<Event>, id: nat)
    ensures var s := Run(events);
            0 <= s.window <= WINDOW && (id in s.windows ==> 0 <= s.windows[id] <= WINDOW)
  {
    AlwaysBalanced(events);
    if id in Run(events).windows {
      assert StreamBalanced(Run(events), id);
    }
  }

  function ReceiveAll(c: Conn, frames: seq<Frame>): (r: (Conn, seq<Update>))
    decreases |frames|
  {
    if frames == [] then (c, [])
    else
      var (mid, first) := Receive(c, frames[0]);
      var (end, rest) := ReceiveAll(mid, frames[1..]);
      (end, first + rest)
  }

  /** Every byte received has been given back or is still held, and less than half a megabyte is held. */
  lemma {:induction false} ReceivedIsCreditedPlusHeld(c: Conn, frames: seq<Frame>)
    requires Tidy(c) && forall k :: 0 <= k < |frames| ==> 0 < frames[k].stream < c.nextStream
    ensures var (after, updates) := ReceiveAll(c, frames);
            c.consumed + InFlight(frames, 0) == Returning(updates, 0) + after.consumed && after.consumed < THRESHOLD
    decreases |frames|
  {
    if frames != [] {
      ReceiveTidy(c, frames[0]);
      var (mid, first) := Receive(c, frames[0]);
      ReceivedIsCreditedPlusHeld(mid, frames[1..]);
      ReturningAppend(first, ReceiveAll(mid, frames[1..]).1, 0);
    }
  }

  /** The same for each stream, as long as none of the frames ends it. */
  lemma {:induction false} StreamReceivedIsCreditedPlusHeld(c: Conn, frames: seq<Frame>, id: nat)
    requires Tidy(c) && forall k :: 0 <= k < |frames| ==> 0 < frames[k].stream < c.nextStream
    requires id > 0 && Known(c, id) && forall k :: 0 <= k < |frames| ==> !Ends(frames[k], id)
    ensures var (after, updates) := ReceiveAll(c, frames);
            && Known(after, id) && Held(after, id) < THRESHOLD
            && Held(c, id) + InFlight(frames, id) == Returning(updates, id) + Held(after, id)
    decreases |frames|
  {
    hide Receive, Find;
    if frames != [] {
      ReceiveTidy(c, frames[0]);
      ReceiveBooks(c, frames[0], id);
      var (mid, first) := Receive(c, frames[0]);
      StreamReceivedIsCreditedPlusHeld(mid, frames[1..], id);
      ReturningAppend(first, ReceiveAll(mid, frames[1..]).1, id);
    }
  }

  // ---------------------------------------------------------------------
  // Which streams are open.

  /** The entries with any other id, in order. */
  function Without(streams: seq<Stream>, id: nat): seq<Stream> {
    if streams == [] then []
    else
      var n := |streams| - 1;
      Without(streams[..n], id) + if streams[n].id == id then [] else [streams[n]]
  }

  lemma {:induction false} WithoutAbsent(streams: seq<Stream>, id: nat)
    requires forall k :: 0 <= k < |streams| ==> streams[k].id != id
    ensures Without(streams, id) == streams
  {
    if streams != [] {
      WithoutAbsent(streams[..|streams| - 1], id);
    }
  }

  lemma {:induction false} WithoutOne(streams: seq<Stream>, k: nat)
    requires k < |streams|
    requires forall j :: 0 <= j < |streams| && j != k ==> streams[j].id != streams[k].id
    ensures Without(streams, streams[k].id) == streams[..k] + streams[k + 1..]
  {
    var n := |streams| - 1;
    if k == n {
      WithoutAbsent(streams[..n], streams[k].id);
      assert streams[n + 1..] == [];
    } else {
      WithoutOne(streams[..n], k);
      assert streams[..n][..k] == streams[..k];
      assert streams[..n][k + 1..] + [streams[n]] == streams[k + 1..];
    }
  }

  /** Closing removes the stream's entry, if it has one, and leaves every other with its count and in its place. */
  lemma CloseRemoves(c: Conn, id: nat)
    requires Tidy(c)
    ensures Close(c, id) == c.(streams := Without(c.streams, id))
    ensures !Known(Close(c, id), id)
    ensures |Close(c, id).streams| == |c.streams| - if Known(c, id) then 1 else 0
  {
    var k := Find(c.streams, id);
    if k.Some? {
      WithoutOne(c.streams, k.value);
    } else {
      WithoutAbsent(c.streams, id);
    }
  }

  function Ids(streams: seq<Stream>): (r: seq<nat>)
    ensures |r| == |streams|
  {
    seq(|streams|, k requires 0 <= k < |streams| => streams[k].id)
  }

  function Drop(ids: seq<nat>, id: nat): seq<nat> {
    if ids == [] then []
    else
      var n := |ids| - 1;
      Drop(ids[..n], id) + if ids[n] == id then [] else [ids[n]]
  }

  lemma {:induction false} IdsWithout(streams: seq<Stream>, id: nat)
    ensures Ids(Without(streams, id)) == Drop(Ids(streams), id)
  {
    if streams != [] {
      var n := |streams| - 1;
      IdsWithout(streams[..n], id);
      assert Ids(streams)[..n] == Ids(streams[..n]);
      assert Ids(Without(streams[..n], id) + [streams[n]]) == Ids(Without(streams[..n], id)) + [streams[n].id];
    }
  }

  lemma CreditKeepsIds(c: Conn, stream: nat, length: nat)
    ensures Ids(Credit(c, stream, length).0.streams) == Ids(c.streams)
  {
  }

  /** A received frame leaves the ids as they are, less the one it ends. */
  lemma ReceiveIds(c: Conn, f: Frame)
    requires Tidy(c) && 0 < f.stream < c.nextStream
    ensures Ids(Receive(c, f).0.streams) == if Ends(f, f.stream) then Drop(Ids(c.streams), f.stream) else Ids(c.streams)
  {
    hide Drop, Ids, Credit;
    var mid := if f.Data? then Credit(c, f.stream, f.length).0 else c;
    if f.Data? {
      CreditKeepsIds(c, f.stream, f.length);
      CreditTidy(c, f.stream, f.length);
    }
    if Ends(f, f.stream) {
      CloseRemoves(mid, f.stream);
      IdsWithout(mid.streams, f.stream);
    }
  }

  /** The requests of a run that were made. */
  function Requests(events: seq<Event>): nat {
    if events == [] then 0
    else
      var n := |events| - 1;
      Requests(events[..n]) + if events[n].Request? && Enabled(Run(events[..n]), events[n]) then 1 else 0
  }

  /** Streams requested and not yet ended by a frame that was delivered; the n-th request is stream 2n + 1. */
  function OpenIds(events: seq<Event>): seq<nat> {
    if events == [] then []
    else
      var n := |events| - 1;
      var before, s := OpenIds(events[..n]), Run(events[..n]);
      if !Enabled(s, events[n]) then before
      else if events[n].Request? then before + [2 * Requests(events[..n]) + 1]
      else if events[n].Deliver? && Ends(s.wire[0], s.wire[0].stream) then Drop(before, s.wire[0].stream)
      else before
  }

  /** In every run the table holds exactly the streams that are open, so a request is refused only when four are. */
  lemma {:induction false} TableIsOpenStreams(events: seq<Event>)
    ensures var c := Run(events).conn;
            && Ids(c.streams) == OpenIds(events) && c.nextStream == 2 * Requests(events) + 1
            && (Enabled(Run(events), Request) <==> |OpenIds(events)| < 4)
  {
    hide Ids, Drop;
    if events == [] {
      assert Ids(FRESH.streams) == [] by {
        NoIds();
      }
    } else {
      var n := |events| - 1;
      TableIsOpenStreams(events[..n]);
      var s := Run(events[..n]);
      AlwaysBalanced(events[..n]);
      if Enabled(s, events[n]) {
        if events[n].Request? {
          IdsAppend(s.conn.streams, s.conn.nextStream);
        } else if events[n].Deliver? {
          ReceiveIds(s.conn, s.wire[0]);
          ReceiveTidy(s.conn, s.wire[0]);
        }
      }
    }
  }

  lemma NoIds()
    ensures Ids([]) == []
  {
  }

  lemma IdsAppend(streams: seq<Stream>, id: nat)
    ensures Ids(streams + [Stream(id, 0)]) == Ids(streams) + [id]
  {
  }
}
