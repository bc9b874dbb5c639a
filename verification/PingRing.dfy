/**
 Ping statistics over a ring of 32 slots with 16-bit sequence numbers
 (client/mozilla/pinghelper.cpp), against an unbounded log of all pings sent.
 */
module PingRing {

  const WINDOW := 32
  const SEQUENCES := 65536
  const UINT_MAX := 0xffff_ffff

  datatype Slot = Slot(timestamp: int, latency: int, sequence: nat)

  const RESET := Slot(-1, -1, 0)

  datatype Ring = Ring(slots: seq<Slot>, sequence: nat)
  {
    predicate Valid() { |slots| == WINDOW && sequence < SEQUENCES }
  }

  function Started(): Ring { Ring(seq(WINDOW, _ => RESET), 0) }

  function NextPing(r: Ring, now: int): Ring
    requires r.Valid()
  {
    Ring(r.slots[r.sequence % WINDOW := Slot(now, -1, r.sequence)], (r.sequence + 1) % SEQUENCES)
  }

  function PingReceived(r: Ring, sequence: nat, now: int): Ring
    requires r.Valid()
  {
    var index := sequence % WINDOW;
    var slot := r.slots[index];
    if slot.sequence == sequence then r.(slots := r.slots[index := slot.(latency := now - slot.timestamp)]) else r
  }

  // ---------------------------------------------------------------- the log

  /** A ping that was sent; the k-th one carries sequence number k modulo 65536. */
  datatype Ping = Ping(timestamp: int, latency: int)

  /** The ping is among the last 32 and carries the sequence number. */
  predicate Answers(log: seq<Ping>, i: int, sequence: nat) {
    0 <= i < |log| && |log| - WINDOW <= i && i % SEQUENCES == sequence
  }

  ghost function LogReply(log: seq<Ping>, sequence: nat, now: int): seq<Ping> {
    if i :| Answers(log, i, sequence) then log[i := log[i].(latency := now - log[i].timestamp)] else log
  }

  /** The newest ping among the first n that falls on slot j. */
  function Newest(n: nat, j: nat): (i: int)
    requires j < n && j < WINDOW
    ensures 0 <= i < n <= i + WINDOW && i % WINDOW == j
  {
    n - 1 - (n - 1 - j) % WINDOW
  }

  lemma NewestIsUnique(n: nat, j: nat, i: int)
    requires j < n && j < WINDOW && 0 <= i < n <= i + WINDOW && i % WINDOW == j
    ensures Newest(n, j) == i
  {
  }

  /** What slot j must hold when the log is as given. */
  function SlotFor(log: seq<Ping>, j: nat): Slot
    requires j < WINDOW
  {
    if |log| <= j then RESET
    else var i := Newest(|log|, j); Slot(log[i].timestamp, log[i].latency, i % SEQUENCES)
  }

  ghost predicate Refines(r: Ring, log: seq<Ping>) {
    && r.Valid() && r.sequence == |log| % SEQUENCES
    && forall j: nat :: j < WINDOW ==> r.slots[j] == SlotFor(log, j)
  }

  lemma StartedRefines()
    ensures Refines(Started(), [])
  {
  }

  lemma SlotOfIndex(n: nat)
    ensures (n % SEQUENCES) % WINDOW == n % WINDOW
  {
    assert n == SEQUENCES * (n / SEQUENCES) + n % SEQUENCES;
    assert n == WINDOW * (2048 * (n / SEQUENCES)) + n % SEQUENCES;
  }

  lemma SequenceWraps(n: nat)
    ensures (n % SEQUENCES + 1) % SEQUENCES == (n + 1) % SEQUENCES
  {
  }

  /** One more ping changes the newest one of its own slot only. */
  lemma NewestAfterOneMore(n: nat, j: nat)
    requires j <= n && j < WINDOW
    ensures j == n % WINDOW ==> Newest(n + 1, j) == n
    ensures j != n % WINDOW ==> j < n && Newest(n + 1, j) == Newest(n, j)
  {
    if j == n % WINDOW {
      NewestIsUnique(n + 1, j, n);
    } else {
      NewestIsUnique(n + 1, j, Newest(n, j));
    }
  }

  lemma NextPingRefines(r: Ring, log: seq<Ping>, now: int)
    requires Refines(r, log)
    ensures Refines(NextPing(r, now), log + [Ping(now, -1)])
  {
    hide Newest;
    var n := |log|;
    var longer := log + [Ping(now, -1)];
    SlotOfIndex(n);
    forall j: nat | j < WINDOW ensures NextPing(r, now).slots[j] == SlotFor(longer, j) {
      assert r.slots[j] == SlotFor(log, j);
      if j <= n { NewestAfterOneMore(n, j); }
    }
    SequenceWraps(n);
  }

  /** A slot matches a reply exactly if a ping of the window carries its number. */
  lemma MatchIsAnswer(r: Ring, log: seq<Ping>, sequence: nat)
    requires Refines(r, log) && sequence < SEQUENCES && (log != [] || sequence != 0)
    ensures var j := sequence % WINDOW;
            r.slots[j].sequence == sequence <==> j < |log| && Answers(log, Newest(|log|, j), sequence)
    ensures forall i :: Answers(log, i, sequence) ==> sequence % WINDOW < |log| && i == Newest(|log|, sequence % WINDOW)
  {
    hide Newest;
    var j := sequence % WINDOW;
    assert r.slots[j] == SlotFor(log, j);
    forall i | Answers(log, i, sequence) ensures j < |log| && i == Newest(|log|, j) {
      SlotOfIndex(i);
      NewestIsUnique(|log|, j, i);
    }
  }

  lemma ReplyRefines(r: Ring, log: seq<Ping>, sequence: nat, now: int)
    requires Refines(r, log) && sequence < SEQUENCES && (log != [] || sequence != 0)
    ensures Refines(PingReceived(r, sequence, now), LogReply(log, sequence, now))
  {
    hide Newest;
    MatchIsAnswer(r, log, sequence);
    var j := sequence % WINDOW;
    var after := LogReply(log, sequence, now);
    if j < |log| && Answers(log, Newest(|log|, j), sequence) {
      var i := Newest(|log|, j);
      assert after == log[i := log[i].(latency := now - log[i].timestamp)];
      forall k: nat | k < WINDOW ensures PingReceived(r, sequence, now).slots[k] == SlotFor(after, k) {
        assert r.slots[k] == SlotFor(log, k);
      }
    }
  }

  /**
   Before the first ping a reply leaves the ring alone if and only if its number
   is not 0: number 0 matches the slots' reset value.
   */
  lemma EarlyReplyIsIgnoredExactly(sequence: nat, now: int)
    requires sequence < SEQUENCES && now >= 0
    ensures PingReceived(Started(), sequence, now) == Started() <==> sequence != 0
  {
    var r := PingReceived(Started(), sequence, now);
    if sequence == 0 {
      assert r.slots[0].latency == now + 1 && Started().slots[0].latency == -1;
    }
  }

  // ---------------------------------------------------------------- runs

  datatype Event = Send(now: int) | Reply(sequence: nat, now: int)

  function RingRun(events: seq<Event>): (r: Ring)
    ensures r.Valid()
  {
    if events == [] then Started() else
    var before := RingRun(events[..|events|-1]);
    match events[|events|-1]
    case Send(now) => NextPing(before, now)
    case Reply(sequence, now) => PingReceived(before, sequence, now)
  }

  ghost function LogRun(events: seq<Event>): seq<Ping> {
    if events == [] then [] else
    var before := LogRun(events[..|events|-1]);
    match events[|events|-1]
    case Send(now) => before + [Ping(now, -1)]
    case Reply(sequence, now) => LogReply(before, sequence, now)
  }

  /** Replies carry 16-bit numbers. */
  predicate SixteenBit(events: seq<Event>) {
    forall i :: 0 <= i < |events| && events[i].Reply? ==> events[i].sequence < SEQUENCES
  }

  /** What the last stray reply numbered 0 has written, counted from the reset timestamp -1. */
  function StrayLatency(events: seq<Event>): int {
    if events == [] then -1
    else
      match events[|events|-1]
      case Reply(sequence, now) => if sequence == 0 then now + 1 else StrayLatency(events[..|events|-1])
      case Send(_) => StrayLatency(events[..|events|-1])
  }

  /** The ring before the first ping: reset, but for the latency a stray reply has left in slot 0. */
  function Unsent(latency: int): Ring { Ring(Started().slots[0 := RESET.(latency := latency)], 0) }

  lemma UnsentReset()
    ensures Unsent(-1) == Started()
  {
    assert Started().slots[0 := RESET] == Started().slots;
  }

  lemma StrayReply(latency: int, sequence: nat, now: int)
    requires sequence < SEQUENCES
    ensures PingReceived(Unsent(latency), sequence, now) == Unsent(if sequence == 0 then now + 1 else latency)
    ensures LogReply([], sequence, now) == []
  {
    var r := PingReceived(Unsent(latency), sequence, now);
    if sequence == 0 { assert r.slots == Unsent(now + 1).slots; }
  }

  /** The first ping overwrites whatever a stray reply has left. */
  lemma FirstPing(latency: int, now: int)
    ensures NextPing(Unsent(latency), now) == NextPing(Started(), now)
  {
    assert NextPing(Unsent(latency), now).slots == NextPing(Started(), now).slots;
  }

  /**
   The ring refines the log over every run from the first ping on, across the
   wrap of the 16-bit sequence: each slot holds the newest ping that falls on
   it, and a reply is credited exactly to the ping of the last 32 that carries
   its number. Before the first ping it is reset but for stray replies.
   */
  lemma {:induction false} RingRefinesLog(events: seq<Event>)
    requires SixteenBit(events)
    ensures LogRun(events) != [] ==> Refines(RingRun(events), LogRun(events))
    ensures LogRun(events) == [] ==> RingRun(events) == Unsent(StrayLatency(events))
  {
    hide Unsent, Started, Refines;
    if events == [] {
      UnsentReset();
    } else {
      var init, last := events[..|events|-1], events[|events|-1];
      RingRefinesLog(init);
      match last
      case Send(now) =>
        if LogRun(init) == [] {
          FirstPing(StrayLatency(init), now);
          StartedRefines();
          NextPingRefines(Started(), [], now);
        } else {
          NextPingRefines(RingRun(init), LogRun(init), now);
        }
      case Reply(sequence, now) =>
        if LogRun(init) == [] {
          StrayReply(StrayLatency(init), sequence, now);
        } else {
          ReplyRefines(RingRun(init), LogRun(init), sequence, now);
        }
    }
  }

  // ---------------------------------------------------------------- statistics

  function Pings(slots: seq<Slot>): (ps: seq<Ping>)
    ensures |ps| == |slots| && forall j :: 0 <= j < |slots| ==> ps[j] == Ping(slots[j].timestamp, slots[j].latency)
  {
    seq(|slots|, j requires 0 <= j < |slots| => Ping(slots[j].timestamp, slots[j].latency))
  }

  /** The pings the statistics are about: the last 32, or all if there are fewer. */
  function Recent(log: seq<Ping>): seq<Ping> { if |log| <= WINDOW then log else log[|log|-WINDOW..] }

  function Sum(ps: seq<Ping>, f: Ping -> int): int {
    if ps == [] then 0 else Sum(ps[..|ps|-1], f) + f(ps[|ps|-1])
  }

  function CountReceived(p: Ping): int { if p.latency >= 0 then 1 else 0 }
  function LatencyReceived(p: Ping): int { if p.latency >= 0 then p.latency else 0 }

  /** Answered, or sent long enough ago to count as lost. */
  function CountSent(sendBefore: int): Ping -> int {
    (p: Ping) => if p.latency >= 0 || (p.timestamp > 0 && p.timestamp < sendBefore) then 1 else 0
  }

  lemma {:induction false} SumConcat(a: seq<Ping>, b: seq<Ping>, f: Ping -> int)
    ensures Sum(a + b, f) == Sum(a, f) + Sum(b, f)
  {
    if b == [] {
      assert a + b == a;
    } else {
      assert (a + b)[..|a + b|-1] == a + b[..|b|-1];
      SumConcat(a, b[..|b|-1], f);
    }
  }

  lemma {:induction false} SumZero(ps: seq<Ping>, f: Ping -> int)
    requires forall j :: 0 <= j < |ps| ==> f(ps[j]) == 0
    ensures Sum(ps, f) == 0
  {
    if ps != [] { SumZero(ps[..|ps|-1], f); }
  }

  /** While the ring is not full it holds the log followed by reset slots. */
  lemma YoungRing(r: Ring, log: seq<Ping>)
    requires Refines(r, log) && |log| <= WINDOW
    ensures Pings(r.slots) == log + seq(WINDOW - |log|, _ => Ping(-1, -1))
  {
    forall j: nat | j < WINDOW ensures Pings(r.slots)[j] == (log + seq(WINDOW - |log|, _ => Ping(-1, -1)))[j] {
      assert r.slots[j] == SlotFor(log, j);
      if j < |log| { NewestIsUnique(|log|, j, j); }
    }
  }

  /** Where the newest ping of a slot stands in a log that has filled the ring. */
  lemma RotatedIndex(n: nat, j: nat)
    requires n > WINDOW && j < WINDOW
    ensures var m := n - n % WINDOW;
            Newest(n, j) == if j < n - m then m + j else m - WINDOW + j
  {
    hide Newest;
    var m := n - n % WINDOW;
    var i := if j < n - m then m + j else m - WINDOW + j;
    assert m == WINDOW * (n / WINDOW);
    assert i == WINDOW * (if j < n - m then n / WINDOW else n / WINDOW - 1) + j;
    assert i % WINDOW == j;
    NewestIsUnique(n, j, i);
  }

  /** A full ring is the window of the log, rotated. */
  lemma FullRing(r: Ring, log: seq<Ping>)
    requires Refines(r, log) && |log| > WINDOW
    ensures var m := |log| - |log| % WINDOW;
            Pings(r.slots) == log[m..] + log[|log|-WINDOW..m]
  {
    hide Newest, Pings;
    var n := |log|;
    var m := n - n % WINDOW;
    var rotated := log[m..] + log[n-WINDOW..m];
    forall j: nat | j < WINDOW ensures Pings(r.slots)[j] == rotated[j] {
      assert r.slots[j] == SlotFor(log, j);
      RotatedIndex(n, j);
      assert rotated[j] == log[Newest(n, j)];
    }
  }

  /** Any sum over the ring to which reset slots add nothing is that sum over the recent pings. */
  lemma RingSumIsLogSum(r: Ring, log: seq<Ping>, f: Ping -> int)
    requires Refines(r, log) && f(Ping(-1, -1)) == 0
    ensures Sum(Pings(r.slots), f) == Sum(Recent(log), f)
  {
    hide Sum, Refines, Pings;
    var n := |log|;
    if n <= WINDOW {
      YoungRing(r, log);
      var blank := seq(WINDOW - n, _ => Ping(-1, -1));
      SumConcat(log, blank, f);
      SumZero(blank, f);
    } else {
      FullRing(r, log);
      var m := n - n % WINDOW;
      SumConcat(log[m..], log[n-WINDOW..m], f);
      SumConcat(log[n-WINDOW..m], log[m..], f);
      assert Recent(log) == log[n-WINDOW..m] + log[m..];
    }
  }

  /** The nearest-integer average of the received latencies, as an unsigned 32-bit number. */
  function LatencyOf(ps: seq<Ping>): int {
    var count, total := Sum(ps, CountReceived), Sum(ps, LatencyReceived);
    if count <= 0 then 0 else ((total + count / 2) / count) % 0x1_0000_0000
  }

  function LossOf(ps: seq<Ping>, sendBefore: int): real {
    var sent, received := Sum(ps, CountSent(sendBefore)), Sum(ps, CountReceived);
    if sent <= 0 then 0.0 else (sent - received) as real / (WINDOW as real)
  }

  /** Sent before the time given, and not answered. */
  predicate IsLost(p: Ping, sendBefore: int) { p.latency < 0 && 0 < p.timestamp < sendBefore }

  function LostAmong(ps: seq<Ping>, sendBefore: int): set<int> {
    set i | 0 <= i < |ps| && IsLost(ps[i], sendBefore)
  }

  lemma {:induction false} LostAreCounted(ps: seq<Ping>, sendBefore: int)
    ensures Sum(ps, CountSent(sendBefore)) - Sum(ps, CountReceived) == |LostAmong(ps, sendBefore)|
  {
    if ps != [] {
      var init, n := ps[..|ps|-1], |ps|-1;
      LostAreCounted(init, sendBefore);
      assert LostAmong(ps, sendBefore)
             == LostAmong(init, sendBefore) + if IsLost(ps[n], sendBefore) then {n} else {};
    }
  }

  lemma {:induction false} ReceivedAreSent(ps: seq<Ping>, sendBefore: int)
    ensures 0 <= Sum(ps, CountReceived) <= Sum(ps, CountSent(sendBefore))
  {
    if ps != [] { ReceivedAreSent(ps[..|ps|-1], sendBefore); }
  }

  /** The loss is the number of pings that were sent before the time given and not answered, over 32. */
  lemma LossCountsTheLost(ps: seq<Ping>, sendBefore: int)
    ensures LossOf(ps, sendBefore) == |LostAmong(ps, sendBefore)| as real / 32.0
  {
    LostAreCounted(ps, sendBefore);
    ReceivedAreSent(ps, sendBefore);
  }

  function ReceivedAmong(ps: seq<Ping>): set<int> { set i | 0 <= i < |ps| && ps[i].latency >= 0 }

  lemma {:induction false} ReceivedAreCounted(ps: seq<Ping>)
    ensures Sum(ps, CountReceived) == |ReceivedAmong(ps)|
  {
    if ps != [] {
      var init, n := ps[..|ps|-1], |ps|-1;
      ReceivedAreCounted(init);
      assert ReceivedAmong(ps) == ReceivedAmong(init) + if ps[n].latency >= 0 then {n} else {};
    }
  }

  /** The sum over a ring before the first ping is what slot 0 adds. */
  lemma UnsentSum(latency: int, f: Ping -> int)
    requires f(Ping(-1, -1)) == 0
    ensures Sum(Pings(Unsent(latency).slots), f) == f(Ping(-1, latency))
  {
    var ps := Pings(Unsent(latency).slots);
    assert ps == [ps[0]] + ps[1..];
    SumConcat([ps[0]], ps[1..], f);
    assert [ps[0]][..0] == [];
    SumZero(ps[1..], f);
  }

  lemma UnsentStatistics(latency: int, sendBefore: int)
    ensures var ps := Pings(Unsent(latency).slots);
            LatencyOf(ps) == LatencyReceived(Ping(-1, latency)) % 0x1_0000_0000 && LossOf(ps, sendBefore) == 0.0
    ensures LossOf([], sendBefore) == 0.0
  {
    hide Pings, Unsent;
    UnsentSum(latency, CountReceived);
    UnsentSum(latency, LatencyReceived);
    UnsentSum(latency, CountSent(sendBefore));
  }

  lemma ResetAddsNothing(sendBefore: int)
    ensures CountSent(sendBefore)(Ping(-1, -1)) == 0
  {
  }

  /**
   From the first ping on, latency and loss are those of the last 32 pings of
   the log. Before it there is no loss, and the latency is the last stray one.
   */
  lemma StatisticsAreOfRecentPings(events: seq<Event>, sendBefore: int)
    requires SixteenBit(events)
    ensures var ps, log := Pings(RingRun(events).slots), LogRun(events);
            && LossOf(ps, sendBefore) == LossOf(Recent(log), sendBefore)
            && (log != [] ==> LatencyOf(ps) == LatencyOf(Recent(log)))
            && (log == [] ==> LatencyOf(ps) == LatencyReceived(Ping(-1, StrayLatency(events))) % 0x1_0000_0000)
  {
    hide Refines, RingRun, LogRun, Pings, Unsent, CountSent, StrayLatency;
    RingRefinesLog(events);
    ResetAddsNothing(sendBefore);
    if LogRun(events) == [] {
      UnsentStatistics(StrayLatency(events), sendBefore);
    } else {
      RingSumIsLogSum(RingRun(events), LogRun(events), CountReceived);
      RingSumIsLogSum(RingRun(events), LogRun(events), LatencyReceived);
      RingSumIsLogSum(RingRun(events), LogRun(events), CountSent(sendBefore));
    }
  }

  /**
   The loss divides by the size of the ring. It is the share of due pings that
   were lost if and only if all 32 are due or none is lost.
   */
  lemma LossIsTheShareExactly(ps: seq<Ping>, sendBefore: int)
    requires Sum(ps, CountSent(sendBefore)) > 0
    ensures var sent, received := Sum(ps, CountSent(sendBefore)), Sum(ps, CountReceived);
            LossOf(ps, sendBefore) == (sent - received) as real / sent as real <==> sent == WINDOW || sent == received
  {
    var sent, received := Sum(ps, CountSent(sendBefore)), Sum(ps, CountReceived);
    SameQuotientExactly((sent - received) as real, WINDOW as real, sent as real);
  }

  lemma SameQuotientExactly(lost: real, a: real, b: real)
    requires a > 0.0 && b > 0.0
    ensures lost / a == lost / b <==> lost == 0.0 || a == b
  {
    var x, y := lost / a, lost / b;
    assert x * a == lost && y * b == lost;
    if x == y && lost != 0.0 {
      assert x * (a - b) == 0.0;
      assert x != 0.0;
    }
  }

  // ---------------------------------------------------------------- the average is an average

  lemma {:induction false} TotalWithin(ps: seq<Ping>, lo: int, hi: int)
    requires forall i :: 0 <= i < |ps| && ps[i].latency >= 0 ==> lo <= ps[i].latency <= hi
    ensures 0 <= Sum(ps, CountReceived)
    ensures lo * Sum(ps, CountReceived) <= Sum(ps, LatencyReceived) <= hi * Sum(ps, CountReceived)
  {
    if ps != [] {
      TotalWithin(ps[..|ps|-1], lo, hi);
      var c := Sum(ps[..|ps|-1], CountReceived);
      if ps[|ps|-1].latency >= 0 {
        assert lo * (c + 1) == lo * c + lo && hi * (c + 1) == hi * c + hi;
      }
    }
  }

  lemma DivideWithin(total: int, count: int, lo: int, hi: int)
    requires count > 0 && lo * count <= total <= hi * count
    ensures lo <= (total + count / 2) / count <= hi
  {
    var q := (total + count / 2) / count;
    assert count * q <= total + count / 2 < count * (q + 1);
    Cancel(count, lo, q);
    Cancel(count, q, hi);
  }

  lemma Cancel(count: int, a: int, b: int)
    requires count > 0 && count * a < count * (b + 1)
    ensures a <= b
  {
  }

  /** The average lies between any bounds of the received latencies, the smallest and the largest among them. */
  lemma AverageIsBetween(ps: seq<Ping>, lo: int, hi: int)
    requires Sum(ps, CountReceived) > 0 && 0 <= lo && hi <= UINT_MAX
    requires forall i :: 0 <= i < |ps| && ps[i].latency >= 0 ==> lo <= ps[i].latency <= hi
    ensures lo <= LatencyOf(ps) <= hi
  {
    TotalWithin(ps, lo, hi);
    DivideWithin(Sum(ps, LatencyReceived), Sum(ps, CountReceived), lo, hi);
  }

  /** The latency times the number of answers misses the total by at most half that number: it is a nearest integer. */
  lemma LatencyIsNearest(ps: seq<Ping>)
    requires ReceivedAmong(ps) != {} && forall i :: 0 <= i < |ps| ==> ps[i].latency <= UINT_MAX
    ensures var count, total := |ReceivedAmong(ps)|, Sum(ps, LatencyReceived);
            -count <= 2 * (LatencyOf(ps) * count - total) <= count
  {
    ReceivedAreCounted(ps);
    TotalWithin(ps, 0, UINT_MAX);
    var count, total := Sum(ps, CountReceived), Sum(ps, LatencyReceived);
    DivideWithin(total, count, 0, UINT_MAX);
    NearestQuotient(total, count);
  }

  lemma NearestQuotient(total: int, count: int)
    requires count > 0
    ensures -count <= 2 * ((total + count / 2) / count * count - total) <= count
  {
    var q := (total + count / 2) / count;
    assert q * count <= total + count / 2 < q * count + count;
  }

  // ---------------------------------------------------------------- the object

  class PingHelper {
    const data: array<Slot>
    var sequence: nat

    ghost predicate Valid()
      reads this
    {
      data.Length == WINDOW && sequence < SEQUENCES
    }

    ghost function State(): Ring
      reads this, data
    {
      Ring(data[..], sequence)
    }

    constructor ()
      ensures Valid() && fresh(data) && State() == Started()
    {
      data := new Slot[WINDOW](_ => RESET);
      sequence := 0;
      new;
      assert data[..] == seq(WINDOW, _ => RESET);
    }

    method Start()
      requires Valid()
      modifies this`sequence, data
      ensures Valid() && State() == Started()
    {
      sequence := 0;
      for i := 0 to WINDOW
        invariant sequence == 0 && forall j :: 0 <= j < i ==> data[j] == RESET
      {
        data[i] := RESET;
      }
      assert data[..] == seq(WINDOW, _ => RESET);
    }

    method SendNext(now: int)
      requires Valid()
      modifies this`sequence, data
      ensures Valid() && State() == NextPing(old(State()), now)
    {
      var index := sequence % WINDOW;
      data[index] := Slot(now, -1, sequence);
      sequence := (sequence + 1) % SEQUENCES;
    }

    method Receive(reply: nat, now: int)
      requires Valid() && reply < SEQUENCES
      modifies data
      ensures Valid() && State() == PingReceived(old(State()), reply, now)
    {
      var index := reply % WINDOW;
      if data[index].sequence == reply {
        var sendTime := data[index].timestamp;
        data[index] := data[index].(latency := now - sendTime);
      }
    }

    method Latency() returns (msec: int)
      requires Valid()
      ensures msec == LatencyOf(Pings(State().slots))
    {
      var recvCount, totalMsec := 0, 0;
      ghost var ps := Pings(data[..]);
      for i := 0 to WINDOW
        invariant recvCount == Sum(ps[..i], CountReceived) && totalMsec == Sum(ps[..i], LatencyReceived)
      {
        assert ps[..i+1][..i] == ps[..i];
        if data[i].latency < 0 {
          continue;
        }
        recvCount := recvCount + 1;
        totalMsec := totalMsec + data[i].latency;
      }
      assert ps[..WINDOW] == ps;
      if recvCount <= 0 {
        return 0;
      }
      totalMsec := totalMsec + recvCount / 2;
      msec := (totalMsec / recvCount) % 0x1_0000_0000;
    }

    method Loss(now: int) returns (ratio: real)
      requires Valid()
      ensures ratio == LossOf(Pings(State().slots), now - 1000)
    {
      var sendCount, recvCount := 0, 0;
      var sendBefore := now - 1000;
      ghost var ps := Pings(data[..]);
      for i := 0 to WINDOW
        invariant recvCount == Sum(ps[..i], CountReceived) && sendCount == Sum(ps[..i], CountSent(sendBefore))
      {
        assert ps[..i+1][..i] == ps[..i];
        if data[i].latency >= 0 {
          recvCount := recvCount + 1;
          sendCount := sendCount + 1;
        } else if data[i].timestamp > 0 && data[i].timestamp < sendBefore {
          sendCount := sendCount + 1;
        }
      }
      assert ps[..WINDOW] == ps;
      if sendCount <= 0 {
        return 0.0;
      }
      ratio := (sendCount - recvCount) as real / (WINDOW as real);
    }

    /** The largest received latency, latencies too large for the result left out. */
    method Maximum() returns (msec: int)
      requires Valid()
      ensures forall i :: 0 <= i < WINDOW && data[i].latency < UINT_MAX ==> data[i].latency <= msec
      ensures msec == 0 || exists i :: 0 <= i < WINDOW && data[i].latency == msec < UINT_MAX
      ensures (forall i :: 0 <= i < WINDOW ==> data[i].latency < UINT_MAX) ==> LatencyOf(Pings(State().slots)) <= msec
    {
      msec := 0;
      for k := 0 to WINDOW
        invariant msec >= 0
        invariant forall i :: 0 <= i < k && data[i].latency < UINT_MAX ==> data[i].latency <= msec
        invariant msec == 0 || exists i :: 0 <= i < WINDOW && data[i].latency == msec < UINT_MAX
      {
        if data[k].latency < 0 {
          continue;
        }
        if data[k].latency > msec && data[k].latency < UINT_MAX {
          msec := data[k].latency;
        }
      }
      ghost var ps := Pings(data[..]);
      if (forall i :: 0 <= i < WINDOW ==> data[i].latency < UINT_MAX) && Sum(ps, CountReceived) > 0 {
        AverageIsBetween(ps, 0, msec);
      }
    }
  }
}
