/** Liveness bookkeeping of a machine manager: the time of the last echo
    reply per probe kind, and the staleness rule that turns it into up/down. */
module Liveness {

  /** A probe kind. The manager probes the three in Kinds, but a caller may
      ask about any string. */
  type Kind = string

  /** A reading of the monotonic clock, in nanoseconds (time.Time, time.Duration). */
  type Time = int

  const IPMI: Kind := "ipmi"
  const IPv4: Kind := "ipv4"
  const IPv6: Kind := "ipv6"

  /** The kinds a manager probes, in the order it starts their pingers. */
  const Kinds: seq<Kind> := [IPMI, IPv4, IPv6]

  /** pingThreshold: two seconds. */
  const PingThreshold: Time := 2_000_000_000

  /** The rule of PingUp: a kind never heard from is down; otherwise it is up
      while strictly less than PingThreshold has elapsed since its last reply. */
  predicate Up(ts: map<Kind, Time>, kind: Kind, now: Time)
    ensures Up(ts, kind, now) <==> kind in ts && now < ts[kind] + PingThreshold
  {
    kind in ts && now - ts[kind] < PingThreshold
  }

  /** One echo reply, observed by the pinger of `kind` at clock reading `at`. */
  datatype Reply = Reply(kind: Kind, at: Time)

  /** What the OnRecv callback does with one reply. */
  function Record(ts: map<Kind, Time>, r: Reply): (ts': map<Kind, Time>)
    ensures ts'.Keys == ts.Keys + {r.kind}
    ensures ts'[r.kind] == r.at
    ensures forall k | k in ts && k != r.kind :: ts'[k] == ts[k]
  {
    ts[r.kind := r.at]
  }

  /** The timestamps after the callback has seen the replies `rs`, in order. */
  function Replay(ts: map<Kind, Time>, rs: seq<Reply>): map<Kind, Time>
    decreases |rs|
  {
    if rs == [] then ts else Replay(Record(ts, rs[0]), rs[1..])
  }

  /** The replies arrive in clock order (time.Now is monotonic). */
  ghost predicate InClockOrder(rs: seq<Reply>)
  {
    forall i, j | 0 <= i <= j < |rs| :: rs[i].at <= rs[j].at
  }

  /** Never heard from: down, whatever the time. */
  lemma NeverSeenIsDown(ts: map<Kind, Time>, kind: Kind, now: Time)
    requires kind !in ts
    ensures !Up(ts, kind, now)
  {
  }

  /** The staleness boundary: one nanosecond short of the threshold is up,
      exactly the threshold is down. */
  lemma ThresholdIsExclusive(ts: map<Kind, Time>, kind: Kind)
    requires kind in ts
    ensures Up(ts, kind, ts[kind] + PingThreshold - 1)
    ensures !Up(ts, kind, ts[kind] + PingThreshold)
  {
  }

  /** Once down, a kind stays down as the clock advances without a reply;
      while up, it was up at every earlier reading since the reply. */
  lemma StalenessIsMonotone(ts: map<Kind, Time>, kind: Kind, t1: Time, t2: Time)
    requires t1 <= t2
    ensures Up(ts, kind, t2) ==> Up(ts, kind, t1)
  {
  }

  /** After a reply for kind k, k is up exactly while less than the
      threshold has passed since that reply, and every other kind reads as
      before. */
  lemma UpAfterRecord(ts: map<Kind, Time>, r: Reply, kind: Kind, now: Time)
    ensures kind == r.kind ==> (Up(Record(ts, r), kind, now) <==> now - r.at < PingThreshold)
    ensures kind != r.kind ==> (Up(Record(ts, r), kind, now) <==> Up(ts, kind, now))
  {
  }

  /** Replies for other kinds leave a kind's timestamp alone. */
  lemma {:induction false} ReplayKeepsOtherKinds(ts: map<Kind, Time>, rs: seq<Reply>, kind: Kind)
    requires forall j | 0 <= j < |rs| :: rs[j].kind != kind
    ensures kind in Replay(ts, rs) <==> kind in ts
    ensures kind in ts ==> Replay(ts, rs)[kind] == ts[kind]
    decreases |rs|
  {
    if rs != [] {
      ReplayKeepsOtherKinds(Record(ts, rs[0]), rs[1..], kind);
    }
  }

  /** Last message wins: a kind's timestamp is the time of its latest reply. */
  lemma {:induction false} LastReplyWins(ts: map<Kind, Time>, rs: seq<Reply>, i: nat)
    requires i < |rs|
    requires forall j | i < j < |rs| :: rs[j].kind != rs[i].kind
    ensures rs[i].kind in Replay(ts, rs)
    ensures Replay(ts, rs)[rs[i].kind] == rs[i].at
    decreases |rs|
  {
    if i == 0 {
      ReplayKeepsOtherKinds(Record(ts, rs[0]), rs[1..], rs[0].kind);
    } else {
      LastReplyWins(Record(ts, rs[0]), rs[1..], i - 1);
    }
  }

  /** With replies in clock order, a kind's timestamp never moves back past
      any reply it has seen. */
  lemma {:induction false} ReplayNeverGoesBack(ts: map<Kind, Time>, rs: seq<Reply>, i: nat)
    requires i < |rs|
    requires InClockOrder(rs)
    ensures rs[i].kind in Replay(ts, rs)
    ensures Replay(ts, rs)[rs[i].kind] >= rs[i].at
    decreases |rs|
  {
    var rest := rs[1..];
    assert InClockOrder(rest) by {
      forall a, b | 0 <= a <= b < |rest| ensures rest[a].at <= rest[b].at {
        assert rest[a] == rs[a + 1] && rest[b] == rs[b + 1];
      }
    }
    if i > 0 {
      ReplayNeverGoesBack(Record(ts, rs[0]), rest, i - 1);
    } else if j :| 0 <= j < |rest| && rest[j].kind == rs[0].kind {
      ReplayNeverGoesBack(Record(ts, rs[0]), rest, j);
      assert rest[j] == rs[j + 1];
    } else {
      ReplayKeepsOtherKinds(Record(ts, rs[0]), rest, rs[0].kind);
    }
  }
}
