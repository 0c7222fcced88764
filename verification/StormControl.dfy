// The incident recorder's storm control: per signature, a window that admits so many records and
// counts the rest, a rollover, and a periodic sweep.
module StormControl {
  import opened Wrappers
  import Decimal

  const SIGNATURE_LIMIT := 20
  const SIGNATURE_WINDOW_MS := 60_000

  // The six fields that make a signature, and the rest.
  datatype Record = Record(
    component: string, severity: string, status: Option<nat>, verb: Option<string>,
    route: Option<string>, errorCode: Option<string>, body: string)

  // `Array.prototype.join('|')`: null and undefined print as nothing.
  function Join(fields: seq<string>): string {
    if fields == [] then "" else if |fields| == 1 then fields[0] else fields[0] + "|" + Join(fields[1..])
  }

  function OrEmpty(field: Option<string>): string {
    if field.Some? then field.value else ""
  }

  function Signature(r: Record): string {
    Join([r.component, r.severity, if r.status.Some? then Decimal.FromNat(r.status.value) else "",
          OrEmpty(r.verb), OrEmpty(r.route), OrEmpty(r.errorCode)])
  }

  datatype SignatureState = SignatureState(windowStart: int, count: nat, suppressed: nat, last: Option<Record>)

  // What is handed to the store: a record, or one clone standing for `count` suppressed ones.
  datatype Sent = Single(record: Record) | Summary(record: Record, count: nat)

  // A JavaScript Map keeps insertion order: `keys` lists the keys of `states` in that order.
  datatype Storm = Storm(keys: seq<string>, states: map<string, SignatureState>, sent: seq<Sent>)

  predicate Expired(s: SignatureState, now: int) {
    now - s.windowStart >= SIGNATURE_WINDOW_MS
  }

  // `emitSuppressed`.
  function Emission(s: SignatureState): seq<Sent> {
    if s.suppressed == 0 || s.last == None then [] else [Summary(s.last.value, s.suppressed)]
  }

  // `admit`, then `send` when it admits.
  function Offered(m: Storm, r: Record, now: int): Storm {
    var sig := Signature(r);
    if sig !in m.states then
      Storm(m.keys + [sig], m.states[sig := SignatureState(now, 1, 0, None)], m.sent + [Single(r)])
    else
      var s := m.states[sig];
      if Expired(s, now) then
        m.(states := m.states[sig := SignatureState(now, 1, 0, None)], sent := m.sent + Emission(s) + [Single(r)])
      else if s.count < SIGNATURE_LIMIT then
        m.(states := m.states[sig := s.(count := s.count + 1)], sent := m.sent + [Single(r)])
      else
        m.(states := m.states[sig := s.(suppressed := s.suppressed + 1, last := Some(r))])
  }

  predicate Admits(m: Storm, sig: string, now: int) {
    sig !in m.states || Expired(m.states[sig], now) || m.states[sig].count < SIGNATURE_LIMIT
  }

  // The sweep of the keys in order, starting from `m`.
  function Swept(m: Storm, keys: seq<string>, now: int): Storm {
    if keys == [] then m
    else SweptKey(Swept(m, keys[..|keys| - 1], now), keys[|keys| - 1], now)
  }

  function SweptKey(m: Storm, sig: string, now: int): Storm {
    if sig in m.states && Expired(m.states[sig], now) then
      Storm(Without(m.keys, sig), m.states - {sig}, m.sent + Emission(m.states[sig]))
    else m
  }

  function Without(keys: seq<string>, sig: string): seq<string> {
    if keys == [] then []
    else if keys[|keys| - 1] == sig then Without(keys[..|keys| - 1], sig)
    else Without(keys[..|keys| - 1], sig) + [keys[|keys| - 1]]
  }

  class Recorder {
    var keys: seq<string>
    var states: map<string, SignatureState>
    var sent: seq<Sent>

    ghost function Contents(): Storm
      reads this
    {
      Storm(keys, states, sent)
    }

    constructor ()
      ensures Contents() == Storm([], map[], [])
    {
      keys, states, sent := [], map[], [];
    }

    method Send(x: Sent)
      modifies this`sent
      ensures sent == old(sent) + [x]
    {
      sent := sent + [x];
    }

    method EmitSuppressed(s: SignatureState)
      modifies this`sent
      ensures sent == old(sent) + Emission(s)
      ensures Accounted(sent) == Accounted(old(sent)) + if s.last.Some? then s.suppressed else 0
    {
      EmissionAccounts(sent, s);
      if s.suppressed == 0 || s.last == None {
        return;
      }
      Send(Summary(s.last.value, s.suppressed));
    }

    method Admit(r: Record, now: int) returns (admitted: bool)
      modifies this
      ensures admitted == old(Admits(Contents(), Signature(r), now))
      ensures Storm(keys, states, if admitted then sent + [Single(r)] else sent) == Offered(old(Contents()), r, now)
    {
      var sig := Signature(r);
      if sig !in states || now - states[sig].windowStart >= SIGNATURE_WINDOW_MS {
        var previous := if sig in states then Some(states[sig]) else None;
        if sig !in states {
          keys := keys + [sig];
        }
        states := states[sig := SignatureState(now, 1, 0, None)];
        if previous.Some? {
          EmitSuppressed(previous.value);
        }
        return true;
      }
      var s := states[sig];
      if s.count < SIGNATURE_LIMIT {
        states := states[sig := s.(count := s.count + 1)];
        return true;
      }
      states := states[sig := s.(suppressed := s.suppressed + 1, last := Some(r))];
      return false;
    }

    method Persist(r: Record, now: int)
      modifies this
      ensures Contents() == Offered(old(Contents()), r, now)
    {
      var admitted := Admit(r, now);
      if admitted {
        Send(Single(r));
      }
    }

    method SweepSignatures(now: int)
      modifies this
      ensures Contents() == Swept(old(Contents()), old(keys), now)
    {
      var all := keys;
      var i := 0;
      while i < |all|
        invariant 0 <= i <= |all|
        invariant Contents() == Swept(old(Contents()), all[..i], now)
      {
        assert all[..i + 1][..i] == all[..i];
        var sig := all[i];
        if sig in states && now - states[sig].windowStart >= SIGNATURE_WINDOW_MS {
          var s := states[sig];
          keys, states := Without(keys, sig), states - {sig};
          EmitSuppressed(s);
        }
        i := i + 1;
      }
      assert all[..i] == all;
    }
  }

  // ---- Runs ----

  datatype Event = Offer(record: Record, now: nat) | Sweep(now: nat)

  function Step(m: Storm, e: Event): Storm {
    match e
    case Offer(r, now) => Offered(m, r, now)
    case Sweep(now) => Swept(m, m.keys, now)
  }

  function Run(events: seq<Event>): Storm {
    if events == [] then Storm([], map[], [])
    else Step(Run(events[..|events| - 1]), events[|events| - 1])
  }

  ghost predicate Monotone(events: seq<Event>) {
    forall i, j :: 0 <= i < j < |events| ==> events[i].now <= events[j].now
  }

  function Clock(events: seq<Event>): nat {
    if events == [] then 0 else events[|events| - 1].now
  }

  // ---- Conservation ----

  function RecordsOffered(events: seq<Event>): nat {
    if events == [] then 0
    else RecordsOffered(events[..|events| - 1]) + if events[|events| - 1].Offer? then 1 else 0
  }

  // Records admitted, plus suppressed records a summary has reported.
  function Accounted(sent: seq<Sent>): nat {
    if sent == [] then 0
    else Accounted(sent[..|sent| - 1]) + match sent[|sent| - 1] case Single(_) => 1 case Summary(_, n) => n
  }

  // Suppressed records no summary has reported yet.
  function Held(keys: seq<string>, states: map<string, SignatureState>): nat {
    if keys == [] then 0
    else
      var last := keys[|keys| - 1];
      Held(keys[..|keys| - 1], states) + if last in states then states[last].suppressed else 0
  }

  ghost predicate Distinct(keys: seq<string>) {
    forall i, j :: 0 <= i < j < |keys| ==> keys[i] != keys[j]
  }

  ghost predicate StormOk(m: Storm) {
    && Distinct(m.keys)
    && (forall k :: k in m.keys <==> k in m.states)
    && (forall k :: k in m.states ==> (m.states[k].suppressed > 0 <==> m.states[k].last.Some?))
  }

  lemma AccountedAppend(sent: seq<Sent>, x: Sent)
    ensures Accounted(sent + [x]) == Accounted(sent) + match x case Single(_) => 1 case Summary(_, n) => n
  {
    assert (sent + [x])[..|sent|] == sent;
  }

  lemma EmissionAccounts(sent: seq<Sent>, s: SignatureState)
    ensures Accounted(sent + Emission(s)) == Accounted(sent) + if s.last.Some? then s.suppressed else 0
  {
    if s.suppressed > 0 && s.last.Some? {
      AccountedAppend(sent, Summary(s.last.value, s.suppressed));
    } else {
      assert sent + [] == sent;
    }
  }

  lemma AccountedEmission(sent: seq<Sent>, s: SignatureState)
    requires s.suppressed > 0 <==> s.last.Some?
    ensures Accounted(sent + Emission(s)) == Accounted(sent) + s.suppressed
  {
    EmissionAccounts(sent, s);
  }

  // A change at a key that is not listed is not counted.
  lemma {:induction false} HeldElsewhere(keys: seq<string>, a: map<string, SignatureState>, b: map<string, SignatureState>)
    requires forall k :: k in keys ==> k in a && k in b && a[k].suppressed == b[k].suppressed
    ensures Held(keys, a) == Held(keys, b)
  {
    if keys != [] { HeldElsewhere(keys[..|keys| - 1], a, b); }
  }

  lemma {:induction false} HeldUpdate(keys: seq<string>, states: map<string, SignatureState>, sig: string, s: SignatureState)
    requires Distinct(keys) && sig in keys && forall k :: k in keys ==> k in states
    ensures Held(keys, states[sig := s]) + states[sig].suppressed == Held(keys, states) + s.suppressed
  {
    var init := keys[..|keys| - 1];
    if keys[|keys| - 1] == sig {
      HeldElsewhere(init, states, states[sig := s]);
    } else {
      assert sig in init;
      HeldUpdate(init, states, sig, s);
    }
  }

  lemma {:induction false} WithoutKey(keys: seq<string>, sig: string)
    requires Distinct(keys)
    ensures forall k :: k in Without(keys, sig) <==> k in keys && k != sig
    ensures Distinct(Without(keys, sig))
  {
    if keys != [] {
      var init, last := keys[..|keys| - 1], keys[|keys| - 1];
      assert keys == init + [last];
      WithoutKey(init, sig);
      assert last !in init;
    }
  }

  lemma HeldLast(init: seq<string>, last: string, states: map<string, SignatureState>)
    requires last in states && forall k :: k in init ==> k in states
    ensures Held(init + [last], states) == Held(init, states) + states[last].suppressed
  {
    assert (init + [last])[..|init|] == init;
  }

  lemma {:induction false} HeldRemove(keys: seq<string>, states: map<string, SignatureState>, sig: string)
    requires Distinct(keys) && forall k :: k in keys ==> k in states
    ensures Held(Without(keys, sig), states - {sig}) + (if sig in keys then states[sig].suppressed else 0) == Held(keys, states)
  {
    if keys != [] {
      var init, last := keys[..|keys| - 1], keys[|keys| - 1];
      assert keys == init + [last] && last !in init;
      HeldRemove(init, states, sig);
      HeldLast(init, last, states);
      WithoutKey(init, sig);
      if last != sig { HeldLast(Without(init, sig), last, states - {sig}); }
    }
  }

  lemma HeldAppend(keys: seq<string>, states: map<string, SignatureState>, sig: string, s: SignatureState)
    requires sig !in keys && (forall k :: k in keys ==> k in states)
    ensures Held(keys + [sig], states[sig := s]) == Held(keys, states) + s.suppressed
  {
    assert (keys + [sig])[..|keys|] == keys;
    HeldElsewhere(keys, states, states[sig := s]);
  }

  lemma NewSignatureConserves(m: Storm, r: Record, now: int)
    requires StormOk(m) && Signature(r) !in m.states
    ensures var t := Offered(m, r, now);
      Accounted(t.sent) + Held(t.keys, t.states) == Accounted(m.sent) + Held(m.keys, m.states) + 1
  {
    AccountedAppend(m.sent, Single(r));
    HeldAppend(m.keys, m.states, Signature(r), SignatureState(now, 1, 0, None));
  }

  lemma OfferKeepsOk(m: Storm, r: Record, now: int)
    requires StormOk(m)
    ensures StormOk(Offered(m, r, now))
  {
  }

  lemma SentGrowth(m: Storm, r: Record, now: int)
    requires StormOk(m) && Signature(r) in m.states
    ensures var s, t := m.states[Signature(r)], Offered(m, r, now);
      Accounted(t.sent) + t.states[Signature(r)].suppressed == Accounted(m.sent) + s.suppressed + 1
  {
    var s := m.states[Signature(r)];
    if Expired(s, now) {
      AccountedEmission(m.sent, s);
      AccountedAppend(m.sent + Emission(s), Single(r));
    } else if s.count < SIGNATURE_LIMIT {
      AccountedAppend(m.sent, Single(r));
    }
  }

  lemma OfferConserves(m: Storm, r: Record, now: int)
    requires StormOk(m)
    ensures var t := Offered(m, r, now);
      StormOk(t) && Accounted(t.sent) + Held(t.keys, t.states) == Accounted(m.sent) + Held(m.keys, m.states) + 1
  {
    OfferKeepsOk(m, r, now);
    if Signature(r) !in m.states {
      NewSignatureConserves(m, r, now);
    } else {
      HeldUpdate(m.keys, m.states, Signature(r), Offered(m, r, now).states[Signature(r)]);
      SentGrowth(m, r, now);
    }
  }

  lemma SweepKeyConserves(m: Storm, sig: string, now: int)
    requires StormOk(m)
    ensures var t := SweptKey(m, sig, now);
      StormOk(t) && Accounted(t.sent) + Held(t.keys, t.states) == Accounted(m.sent) + Held(m.keys, m.states)
  {
    HeldRemove(m.keys, m.states, sig);
    WithoutKey(m.keys, sig);
    if sig in m.states {
      AccountedEmission(m.sent, m.states[sig]);
    }
  }

  lemma {:induction false} SweepConserves(m: Storm, keys: seq<string>, now: int)
    requires StormOk(m)
    ensures var t := Swept(m, keys, now);
      StormOk(t) && Accounted(t.sent) + Held(t.keys, t.states) == Accounted(m.sent) + Held(m.keys, m.states)
  {
    if keys != [] {
      SweepConserves(m, keys[..|keys| - 1], now);
      SweepKeyConserves(Swept(m, keys[..|keys| - 1], now), keys[|keys| - 1], now);
    }
  }

  // Nothing is lost and nothing is reported twice: over any run, what was offered is what was admitted,
  // plus what summaries reported, plus what is still held.
  lemma {:induction false} NothingLost(events: seq<Event>)
    ensures StormOk(Run(events))
    ensures RecordsOffered(events) == Accounted(Run(events).sent) + Held(Run(events).keys, Run(events).states)
  {
    if events != [] {
      var before := Run(events[..|events| - 1]);
      NothingLost(events[..|events| - 1]);
      match events[|events| - 1]
      case Offer(r, now) => OfferConserves(before, r, now);
      case Sweep(now) => SweepConserves(before, before.keys, now);
    }
  }

  // ---- The rate bound ----

  // One admission: when, and the start of the window it was counted in.
  datatype Admission = Admission(time: int, window: int)

  function StateOf(m: Storm, sig: string): Option<SignatureState> {
    if sig in m.states then Some(m.states[sig]) else None
  }

  // The admissions of one signature over a run.
  function Admissions(events: seq<Event>, sig: string): seq<Admission> {
    if events == [] then []
    else
      var before := Run(events[..|events| - 1]);
      var e := events[|events| - 1];
      if e.Offer? && Signature(e.record) == sig && Admits(before, sig, e.now) then
        Admissions(events[..|events| - 1], sig) + [Admission(e.now, WindowFor(StateOf(before, sig), e.now))]
      else Admissions(events[..|events| - 1], sig)
  }

  function WindowFor(s: Option<SignatureState>, now: int): int {
    if s.None? || Expired(s.value, now) then now else s.value.windowStart
  }

  ghost predicate HistoryOk(h: seq<Admission>) {
    && (forall i, j :: 0 <= i < j < |h| ==> h[i].time <= h[j].time)
    && (forall i :: 0 <= i < |h| ==> h[i].window <= h[i].time < h[i].window + SIGNATURE_WINDOW_MS)
    && (forall i, j :: 0 <= i && i + SIGNATURE_LIMIT <= j < |h| ==> h[i].window + SIGNATURE_WINDOW_MS <= h[j].window)
  }

  ghost predicate RateInv(h: seq<Admission>, s: Option<SignatureState>, clock: int) {
    && HistoryOk(h)
    && (forall i :: 0 <= i < |h| ==> h[i].time <= clock)
    && match s
       case None => forall i :: 0 <= i < |h| ==> h[i].window + SIGNATURE_WINDOW_MS <= clock
       case Some(w) =>
         && w.count <= SIGNATURE_LIMIT && w.count <= |h| && w.windowStart <= clock
         && (forall i :: |h| - w.count <= i < |h| ==> h[i].window == w.windowStart)
         && (forall i :: 0 <= i < |h| - w.count ==> h[i].window + SIGNATURE_WINDOW_MS <= w.windowStart)
  }

  lemma AdmitKeepsRate(h: seq<Admission>, s: Option<SignatureState>, clock: int, now: int)
    requires RateInv(h, s, clock) && clock <= now
    requires s.None? || Expired(s.value, now) || s.value.count < SIGNATURE_LIMIT
    ensures var w := WindowFor(s, now);
      var count := if s.None? || Expired(s.value, now) then 1 else s.value.count + 1;
      forall suppressed, last :: RateInv(h + [Admission(now, w)], Some(SignatureState(w, count, suppressed, last)), now)
  {
    var w := WindowFor(s, now);
    var g := h + [Admission(now, w)];
    if s.None? || Expired(s.value, now) {
      assert forall i :: 0 <= i < |h| ==> h[i].window + SIGNATURE_WINDOW_MS <= w;
    } else {
      assert forall i :: 0 <= i < |h| - s.value.count ==> h[i].window + SIGNATURE_WINDOW_MS <= w;
    }
    assert forall i :: 0 <= i && i + SIGNATURE_LIMIT <= |h| ==> h[i].window + SIGNATURE_WINDOW_MS <= w;
    assert HistoryOk(g);
  }

  lemma OfferKeepsRate(m: Storm, r: Record, now: int, sig: string, h: seq<Admission>, clock: int)
    requires RateInv(h, StateOf(m, sig), clock) && clock <= now
    ensures var s := StateOf(Offered(m, r, now), sig);
      if Signature(r) == sig && Admits(m, sig, now) then RateInv(h + [Admission(now, WindowFor(StateOf(m, sig), now))], s, now)
      else RateInv(h, s, now)
  {
    if Signature(r) == sig && Admits(m, sig, now) {
      AdmitKeepsRate(h, StateOf(m, sig), clock, now);
    }
  }

  lemma {:induction false} SweepKeepsRate(m: Storm, keys: seq<string>, now: int, sig: string, h: seq<Admission>, clock: int)
    requires RateInv(h, StateOf(m, sig), clock) && clock <= now
    ensures RateInv(h, StateOf(Swept(m, keys, now), sig), now)
  {
    if keys != [] {
      SweepKeepsRate(m, keys[..|keys| - 1], now, sig, h, clock);
    }
  }

  lemma {:induction false} RunKeepsRate(events: seq<Event>, sig: string)
    requires Monotone(events)
    ensures RateInv(Admissions(events, sig), StateOf(Run(events), sig), Clock(events))
  {
    if events != [] {
      var init := events[..|events| - 1];
      RunKeepsRate(init, sig);
      var before, h := Run(init), Admissions(init, sig);
      match events[|events| - 1]
      case Offer(r, now) => OfferKeepsRate(before, r, now, sig, h, Clock(init));
      case Sweep(now) => SweepKeepsRate(before, before.keys, now, sig, h, Clock(init));
    }
  }

  lemma FortyApart(h: seq<Admission>, i: nat, j: nat)
    requires HistoryOk(h) && i + 2 * SIGNATURE_LIMIT <= j < |h|
    ensures h[i].time + SIGNATURE_WINDOW_MS <= h[j].time
  {
    var k := i + SIGNATURE_LIMIT;
    assert h[i].window + SIGNATURE_WINDOW_MS <= h[k].window;
    assert h[k].window + SIGNATURE_WINDOW_MS <= h[j].window;
  }

  predicate InMinute(a: Admission, t: int) {
    t <= a.time < t + SIGNATURE_WINDOW_MS
  }

  function CountInMinute(h: seq<Admission>, t: int): nat {
    if h == [] then 0
    else CountInMinute(h[..|h| - 1], t) + if InMinute(h[|h| - 1], t) then 1 else 0
  }

  lemma {:induction false} CountFrom(h: seq<Admission>, t: int, lo: int)
    requires forall i :: 0 <= i < |h| && InMinute(h[i], t) ==> lo <= i
    ensures CountInMinute(h, t) <= if |h| < lo then 0 else |h| - lo
    ensures CountInMinute(h, t) <= |h|
  {
    if h != [] { CountFrom(h[..|h| - 1], t, lo); }
  }

  lemma {:induction false} CountBounded(h: seq<Admission>, t: int)
    requires HistoryOk(h)
    ensures CountInMinute(h, t) <= 2 * SIGNATURE_LIMIT
  {
    if h != [] {
      if InMinute(h[|h| - 1], t) {
        forall i | 0 <= i < |h| && InMinute(h[i], t) ensures |h| - 2 * SIGNATURE_LIMIT <= i {
          if i + 2 * SIGNATURE_LIMIT <= |h| - 1 { FortyApart(h, i, |h| - 1); }
        }
        CountFrom(h, t, |h| - 2 * SIGNATURE_LIMIT);
      } else {
        CountBounded(h[..|h| - 1], t);
      }
    }
  }

  // With a clock that never runs back, any half-open minute admits at most twice the limit of one
  // signature, across rollovers and sweeps.
  lemma AtMostTwiceTheLimit(events: seq<Event>, sig: string, t: int)
    requires Monotone(events)
    ensures CountInMinute(Admissions(events, sig), t) <= 2 * SIGNATURE_LIMIT
  {
    RunKeepsRate(events, sig);
    CountBounded(Admissions(events, sig), t);
  }
}
