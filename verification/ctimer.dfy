/** The periodic timers driven by one thread that wakes every 100 ms
    (ctimer.cpp, ctimer.h). */
module Timers {
  import opened Scp

  const SLEEP_TIME: nat := 100
  const WORD: nat := 0x1_0000_0000

  type Uint32 = n: int | 0 <= n < 0x1_0000_0000

  datatype TimerRec = TimerRec(handle: Uint32, count: Uint32, interval: Uint32)

  function Reload(t: TimerRec): TimerRec { t.(count := t.interval / SLEEP_TIME) }

  predicate FiresNow(t: TimerRec) { t.count == 1 }

  /** --count, wrapping, and a reload when it reaches zero. */
  function TickRec(t: TimerRec): TimerRec {
    if FiresNow(t) then Reload(t) else t.(count := (t.count + WORD - 1) % WORD)
  }

  function TickAll(ts: seq<TimerRec>): seq<TimerRec> {
    if ts == [] then [] else TickAll(ts[..|ts| - 1]) + [TickRec(ts[|ts| - 1])]
  }

  /** The handles whose callbacks a wakeup invokes, in order. */
  function FiredBy(ts: seq<TimerRec>): seq<Uint32> {
    if ts == [] then []
    else
      var t := ts[|ts| - 1];
      FiredBy(ts[..|ts| - 1]) + if FiresNow(t) then [t.handle] else []
  }

  /** The position of a handle, or the length. */
  function IndexOf(ts: seq<TimerRec>, h: Uint32): (i: nat)
    ensures i <= |ts|
    ensures i < |ts| ==> ts[i].handle == h
  {
    if ts == [] then 0
    else if ts[0].handle == h then 0
    else IndexOf(ts[1..], h) + 1
  }

  lemma {:induction false} IndexIsFirst(ts: seq<TimerRec>, h: Uint32, i: nat)
    requires i <= |ts| && (i < |ts| ==> ts[i].handle == h)
    requires forall k :: 0 <= k < i ==> ts[k].handle != h
    ensures IndexOf(ts, h) == i
  {
    if i > 0 {
      assert forall k :: 0 <= k < i - 1 ==> ts[1..][k] == ts[k + 1];
      IndexIsFirst(ts[1..], h, i - 1);
    }
  }

  lemma {:induction false} NotBefore(ts: seq<TimerRec>, h: Uint32)
    ensures forall k :: 0 <= k < IndexOf(ts, h) ==> ts[k].handle != h
  {
    if ts != [] && ts[0].handle != h {
      NotBefore(ts[1..], h);
      assert forall k :: 0 < k < |ts| ==> ts[k] == ts[1..][k - 1];
    }
  }

  datatype Op = Create(interval: Uint32) | Destroy(h: Uint32) | Restart(h: Uint32) | Wakeup

  datatype TimerSet = TimerSet(timers: seq<TimerRec>, sequence: Uint32)

  function Apply(s: TimerSet, op: Op): TimerSet {
    match op
    case Create(interval) =>
      TimerSet(s.timers + [Reload(TimerRec(s.sequence, 0, interval))], (s.sequence + 1) % WORD)
    case Destroy(h) =>
      var i := IndexOf(s.timers, h);
      if i < |s.timers| then s.(timers := s.timers[..i] + s.timers[i + 1..]) else s
    case Restart(h) =>
      var i := IndexOf(s.timers, h);
      if i < |s.timers| then s.(timers := s.timers[i := Reload(s.timers[i])]) else s
    case Wakeup => s.(timers := TickAll(s.timers))
  }

  lemma {:induction false} TickAllAt(ts: seq<TimerRec>)
    ensures |TickAll(ts)| == |ts| && forall i :: 0 <= i < |ts| ==> TickAll(ts)[i] == TickRec(ts[i])
  {
    if ts != [] {
      TickAllAt(ts[..|ts| - 1]);
    }
  }

  /** The list when the walk has reached position i. */
  function Walked(ts: seq<TimerRec>, i: nat): seq<TimerRec>
    requires i <= |ts|
  {
    TickAll(ts[..i]) + ts[i..]
  }

  lemma WalkedEnds(ts: seq<TimerRec>)
    ensures Walked(ts, 0) == ts && FiredBy(ts[..0]) == []
    ensures Walked(ts, |ts|) == TickAll(ts) && FiredBy(ts[..|ts|]) == FiredBy(ts)
  {
    assert ts[..|ts|] == ts;
  }

  lemma WalkedStep(ts: seq<TimerRec>, i: nat)
    requires i < |ts|
    ensures |Walked(ts, i)| == |ts| && Walked(ts, i)[i] == ts[i]
    ensures Walked(ts, i + 1) == Walked(ts, i)[i := TickRec(ts[i])]
    ensures FiredBy(ts[..i + 1]) == FiredBy(ts[..i]) + if FiresNow(ts[i]) then [ts[i].handle] else []
  {
    assert ts[..i + 1][..i] == ts[..i];
    TickAllAt(ts[..i]);
    assert TickAll(ts[..i + 1]) == TickAll(ts[..i]) + [TickRec(ts[i])];
  }

  lemma FiredMore(before: seq<Uint32>, ts: seq<TimerRec>, i: nat)
    requires i < |ts|
    ensures before + FiredBy(ts[..i + 1])
         == before + FiredBy(ts[..i]) + if FiresNow(ts[i]) then [ts[i].handle] else []
  {
    assert ts[..i + 1][..i] == ts[..i];
  }

  // --------------------------------------------------------- the timer object

  class CTimer {
    var timers: seq<TimerRec>
    var sequence: Uint32
    var fired: seq<Uint32>

    function State(): TimerSet
      reads this
    {
      TimerSet(timers, sequence)
    }

    constructor ()
      ensures State() == TimerSet([], 0) && fired == []
    {
      timers, sequence, fired := [], 0, [];
    }

    /** The loop body, for the timer the list walk has reached. */
    method TickAt(i: nat)
      requires i < |timers|
      modifies this`timers, this`fired
      ensures timers == old(timers)[i := TickRec(old(timers)[i])]
      ensures fired == old(fired) + if FiresNow(old(timers)[i]) then [old(timers)[i].handle] else []
    {
      var t := timers[i];
      var count := (t.count + WORD - 1) % WORD;
      timers := timers[i := t.(count := count)];
      if count == 0 {
        fired := fired + [t.handle];
        timers := timers[i := t.(count := t.interval / SLEEP_TIME)];
      }
    }

    /** The same, seen from the list as it was when the walk began. */
    method Visit(i: nat, ghost ts: seq<TimerRec>)
      requires i < |ts| && timers == Walked(ts, i)
      modifies this`timers, this`fired
      ensures timers == Walked(ts, i + 1) && |timers| == |ts|
      ensures fired == old(fired) + if FiresNow(ts[i]) then [ts[i].handle] else []
    {
      WalkedStep(ts, i);
      TickAt(i);
    }

    /** One turn of the thread's loop. */
    method OnWakeup()
      modifies this`timers, this`fired
      ensures State() == Apply(old(State()), Wakeup)
      ensures fired == old(fired) + FiredBy(old(timers))
    {
      ghost var ts := timers;
      WalkedEnds(ts);
      var i := 0;
      while i < |timers|
        invariant i <= |timers| == |ts|
        invariant timers == Walked(ts, i)
        invariant fired == old(fired) + FiredBy(ts[..i])
      {
        FiredMore(old(fired), ts, i);
        Visit(i, ts);
        i := i + 1;
      }
    }

    method Create(interval: Uint32) returns (h: Uint32)
      modifies this`timers, this`sequence
      ensures h == old(sequence) && timers == old(timers) + [TimerRec(h, interval / 100, interval)]
      ensures State() == Apply(old(State()), Op.Create(interval))
    {
      h := sequence;
      sequence := (sequence + 1) % WORD;
      timers := timers + [TimerRec(h, interval / SLEEP_TIME, interval)];
    }

    method Find(h: Uint32) returns (i: nat)
      ensures i == IndexOf(timers, h)
    {
      i := 0;
      while i < |timers| && timers[i].handle != h
        invariant i <= |timers|
        invariant forall k :: 0 <= k < i ==> timers[k].handle != h
      {
        i := i + 1;
      }
      IndexIsFirst(timers, h, i);
    }

    method Destroy(h: Uint32)
      modifies this`timers
      ensures State() == Apply(old(State()), Op.Destroy(h))
    {
      var i := Find(h);
      if i < |timers| {
        timers := timers[..i] + timers[i + 1..];
      }
    }

    method Restart(h: Uint32)
      modifies this`timers
      ensures State() == Apply(old(State()), Op.Restart(h))
    {
      var i := Find(h);
      if i < |timers| {
        timers := timers[i := timers[i].(count := timers[i].interval / SLEEP_TIME)];
      }
    }
  }

  // ------------------------------------------------------------ periodicity

  function Run(s: TimerSet, ops: seq<Op>): TimerSet {
    if ops == [] then s else Apply(Run(s, ops[..|ops| - 1]), ops[|ops| - 1])
  }

  function Wakeups(ops: seq<Op>): nat {
    if ops == [] then 0 else Wakeups(ops[..|ops| - 1]) + if ops[|ops| - 1].Wakeup? then 1 else 0
  }

  function Creations(ops: seq<Op>): nat {
    if ops == [] then 0 else Creations(ops[..|ops| - 1]) + if ops[|ops| - 1].Create? then 1 else 0
  }

  function Count(hs: seq<Uint32>, h: Uint32): nat {
    if hs == [] then 0 else Count(hs[..|hs| - 1], h) + if hs[|hs| - 1] == h then 1 else 0
  }

  function FiresIn(s: TimerSet, op: Op, h: Uint32): nat {
    if op.Wakeup? then Count(FiredBy(s.timers), h) else 0
  }

  /** How often timer h fires in the course of the operations. */
  function Firings(s: TimerSet, ops: seq<Op>, h: Uint32): nat {
    if ops == [] then 0
    else
      var init := ops[..|ops| - 1];
      Firings(s, init, h) + FiresIn(Run(s, init), ops[|ops| - 1], h)
  }

  /** No two timers share handle h. */
  ghost predicate AtMostOnce(ts: seq<TimerRec>, h: Uint32) {
    forall i, j :: 0 <= i < j < |ts| ==> ts[i].handle != h || ts[j].handle != h
  }

  /** Handles are distinct and older than the next one to be given out. */
  ghost predicate Valid(s: TimerSet) {
    && (forall i, j :: 0 <= i < j < |s.timers| ==> s.timers[i].handle != s.timers[j].handle)
    && (forall i :: 0 <= i < |s.timers| ==> s.timers[i].handle < s.sequence)
  }

  predicate Has(s: TimerSet, h: Uint32) { IndexOf(s.timers, h) < |s.timers| }

  function Get(s: TimerSet, h: Uint32): TimerRec
    requires Has(s, h)
  {
    s.timers[IndexOf(s.timers, h)]
  }

  lemma IndexIs(ts: seq<TimerRec>, h: Uint32, i: nat)
    requires i < |ts| && ts[i].handle == h
    requires forall j :: 0 <= j < |ts| && j != i ==> ts[j].handle != h
    ensures IndexOf(ts, h) == i
  {
    IndexIsFirst(ts, h, i);
  }

  lemma {:induction false} FiredCount(ts: seq<TimerRec>, h: Uint32)
    requires AtMostOnce(ts, h)
    ensures var i := IndexOf(ts, h);
            Count(FiredBy(ts), h) == if i < |ts| && FiresNow(ts[i]) then 1 else 0
  {
    if ts != [] {
      var init, t := ts[..|ts| - 1], ts[|ts| - 1];
      FiredCount(init, h);
      NotBefore(init, h);
      CountSnoc(FiredBy(init), t.handle, h);
      var i := IndexOf(init, h);
      if i < |init| {
        IndexIs(ts, h, i);
      } else if t.handle == h {
        IndexIs(ts, h, |init|);
      } else {
        IndexIsFirst(ts, h, |ts|);
      }
      assert FiredBy(init) + [] == FiredBy(init);
    }
  }

  lemma CountSnoc(hs: seq<Uint32>, x: Uint32, h: Uint32)
    ensures Count(hs + [x], h) == Count(hs, h) + if x == h then 1 else 0
  {
    assert (hs + [x])[..|hs|] == hs;
  }

  lemma CreateValid(s: TimerSet, interval: Uint32)
    requires Valid(s) && s.sequence + 1 < WORD
    ensures Valid(Apply(s, Create(interval)))
  {
  }

  lemma DestroyValid(s: TimerSet, h: Uint32)
    requires Valid(s)
    ensures Valid(Apply(s, Destroy(h)))
  {
    var i, ts := IndexOf(s.timers, h), Apply(s, Destroy(h)).timers;
    if i < |s.timers| {
      assert forall k :: 0 <= k < |ts| ==> ts[k] == s.timers[if k < i then k else k + 1];
    }
  }

  lemma ApplyValid(s: TimerSet, op: Op)
    requires Valid(s) && (op.Create? ==> s.sequence + 1 < WORD)
    ensures Valid(Apply(s, op))
    ensures Apply(s, op).sequence == s.sequence + if op.Create? then 1 else 0
  {
    match op
    case Create(interval) => CreateValid(s, interval);
    case Destroy(h) => DestroyValid(s, h);
    case Restart(h) =>
    case Wakeup => TickAllAt(s.timers);
  }

  lemma Shifted(ts: seq<TimerRec>, k: nat)
    requires k < |ts|
    ensures var ts' := ts[..k] + ts[k + 1..];
            |ts'| == |ts| - 1 && forall j :: 0 <= j < |ts'| ==> ts'[j] == ts[if j < k then j else j + 1]
  {
  }

  /** Handle h stays unique unless it is given out again. */
  lemma OnceKept(s: TimerSet, op: Op, h: Uint32)
    requires AtMostOnce(s.timers, h)
    requires op.Create? && s.sequence == h ==> !Has(s, h)
    ensures AtMostOnce(Apply(s, op).timers, h)
  {
    match op
    case Create(_) => NotBefore(s.timers, h);
    case Destroy(g) =>
      if Has(s, g) {
        Shifted(s.timers, IndexOf(s.timers, g));
      }
    case Restart(_) =>
    case Wakeup => TickAllAt(s.timers);
  }

  lemma SoleIndex(ts: seq<TimerRec>, h: Uint32, i: nat)
    requires AtMostOnce(ts, h) && i < |ts| && ts[i].handle == h
    ensures IndexOf(ts, h) == i
  {
    IndexIs(ts, h, i);
  }

  /** What an operation does to one particular timer. */
  lemma ApplyGet(s: TimerSet, op: Op, h: Uint32)
    requires AtMostOnce(s.timers, h) && (op.Create? ==> s.sequence != h)
    requires Has(s, h) && op != Destroy(h) && op != Restart(h)
    ensures AtMostOnce(Apply(s, op).timers, h) && Has(Apply(s, op), h)
    ensures Get(Apply(s, op), h) == if op.Wakeup? then TickRec(Get(s, h)) else Get(s, h)
  {
    var i, ts := IndexOf(s.timers, h), Apply(s, op).timers;
    OnceKept(s, op, h);
    match op
    case Create(_) => SoleIndex(ts, h, i);
    case Wakeup =>
      TickAllAt(s.timers);
      SoleIndex(ts, h, i);
    case Restart(_) => SoleIndex(ts, h, i);
    case Destroy(g) =>
      var k := IndexOf(s.timers, g);
      if k < |s.timers| {
        Shifted(s.timers, k);
        SoleIndex(ts, h, if i < k then i else i - 1);
      }
  }

  /** Wakeups from one firing to the next. An interval below 100 ms reloads the
      counter with 0, which takes 2^32 decrements to come back to 0. */
  function Period(interval: Uint32): nat {
    if interval / SLEEP_TIME == 0 then WORD else interval / SLEEP_TIME
  }

  /** Wakeups until the timer fires. */
  function Left(t: TimerRec): nat { if t.count == 0 then WORD else t.count }

  predicate Untouched(ops: seq<Op>, h: Uint32) { Destroy(h) !in ops && Restart(h) !in ops }

  lemma TickLeft(t: TimerRec)
    ensures Left(TickRec(t)) == if FiresNow(t) then Period(t.interval) else Left(t) - 1
    ensures FiresNow(t) <==> Left(t) == 1
    ensures TickRec(t).interval == t.interval
  {
  }

  lemma OpEffect(s: TimerSet, op: Op, h: Uint32)
    requires AtMostOnce(s.timers, h) && (op.Create? ==> s.sequence != h)
    requires Has(s, h) && op != Destroy(h) && op != Restart(h)
    ensures var s' := Apply(s, op);
            && AtMostOnce(s'.timers, h)
            && Has(s', h) && Get(s', h).interval == Get(s, h).interval
            && (if !op.Wakeup? then FiresIn(s, op, h) == 0 && Left(Get(s', h)) == Left(Get(s, h))
                else if Left(Get(s, h)) == 1 then FiresIn(s, op, h) == 1 && Left(Get(s', h)) == Period(Get(s, h).interval)
                else FiresIn(s, op, h) == 0 && Left(Get(s', h)) == Left(Get(s, h)) - 1)
  {
    ApplyGet(s, op, h);
    TickLeft(Get(s, h));
    FiredCount(s.timers, h);
  }

  /** The length of k periods. */
  function Periods(p: nat, k: nat): nat { if k == 0 then 0 else Periods(p, k - 1) + p }

  /** Every wakeup is accounted for: by full periods that ended in a firing,
      and by what has elapsed of the current one. */
  ghost predicate Accounted(s: TimerSet, h: Uint32, p: nat, wakeups: nat, firings: nat) {
    && AtMostOnce(s.timers, h) && Has(s, h) && Period(Get(s, h).interval) == p
    && 1 <= Left(Get(s, h)) <= p
    && wakeups == Periods(p, firings) + (p - Left(Get(s, h)))
  }

  lemma AccountedStep(s: TimerSet, op: Op, h: Uint32, p: nat, wakeups: nat, firings: nat)
    requires Accounted(s, h, p, wakeups, firings) && (op.Create? ==> s.sequence != h)
    requires op != Destroy(h) && op != Restart(h)
    ensures Accounted(Apply(s, op), h, p, wakeups + (if op.Wakeup? then 1 else 0), firings + FiresIn(s, op, h))
  {
    OpEffect(s, op, h);
    assert Periods(p, firings + 1) == Periods(p, firings) + p;
  }

  lemma {:induction false} SequenceOf(s: TimerSet, ops: seq<Op>)
    ensures Run(s, ops).sequence == (s.sequence + Creations(ops)) % WORD
  {
    if ops != [] {
      SequenceOf(s, ops[..|ops| - 1]);
      NextSequence(s.sequence + Creations(ops[..|ops| - 1]));
    }
  }

  lemma NextSequence(n: nat)
    ensures (n % WORD + 1) % WORD == (n + 1) % WORD
  {
  }

  /** How many timers can be created before handle h is given out (again). */
  function Spare(s: TimerSet, h: Uint32): nat { (h - s.sequence) % WORD }

  lemma NotYet(sequence: Uint32, h: Uint32, created: nat)
    requires created < (h - sequence) % WORD
    ensures (sequence + created) % WORD != h
  {
  }

  lemma NotReissued(s: TimerSet, init: seq<Op>, op: Op, h: Uint32)
    requires Creations(init + [op]) <= Spare(s, h)
    ensures Creations(init) <= Spare(s, h)
    ensures op.Create? ==> Run(s, init).sequence != h
  {
    assert (init + [op])[..|init|] == init;
    SequenceOf(s, init);
    if op.Create? {
      NotYet(s.sequence, h, Creations(init));
    }
  }

  lemma UntouchedInit(ops: seq<Op>, h: Uint32)
    requires ops != [] && Untouched(ops, h)
    ensures Untouched(ops[..|ops| - 1], h)
    ensures ops[|ops| - 1] != Destroy(h) && ops[|ops| - 1] != Restart(h)
  {
  }

  lemma {:induction false} FiringsAndRest(s: TimerSet, ops: seq<Op>, h: Uint32, p: nat)
    requires Accounted(s, h, p, 0, 0) && Untouched(ops, h)
    requires Creations(ops) <= Spare(s, h)
    ensures Accounted(Run(s, ops), h, p, Wakeups(ops), Firings(s, ops, h))
  {
    if ops != [] {
      var init, op := ops[..|ops| - 1], ops[|ops| - 1];
      UntouchedInit(ops, h);
      assert ops == init + [op];
      NotReissued(s, init, op, h);
      FiringsAndRest(s, init, h, p);
      OneMore(s, init, op, h);
      AccountedNext(Run(s, init), Run(s, ops), op, h, p, Wakeups(init), Wakeups(ops), Firings(s, init, h), Firings(s, ops, h));
    }
  }

  lemma AccountedNext(s: TimerSet, s': TimerSet, op: Op, h: Uint32, p: nat, w: nat, w': nat, f: nat, f': nat)
    requires Accounted(s, h, p, w, f)
    requires (op.Create? ==> s.sequence != h) && op != Destroy(h) && op != Restart(h)
    requires s' == Apply(s, op) && w' == w + (if op.Wakeup? then 1 else 0) && f' == f + FiresIn(s, op, h)
    ensures Accounted(s', h, p, w', f')
  {
    AccountedStep(s, op, h, p, w, f);
  }

  lemma OneMore(s: TimerSet, init: seq<Op>, op: Op, h: Uint32)
    ensures Run(s, init + [op]) == Apply(Run(s, init), op)
    ensures Wakeups(init + [op]) == Wakeups(init) + if op.Wakeup? then 1 else 0
    ensures Firings(s, init + [op], h) == Firings(s, init, h) + FiresIn(Run(s, init), op, h)
  {
    assert (init + [op])[..|init|] == init;
  }

  lemma {:induction false} PeriodsIsProduct(p: nat, k: nat)
    ensures Periods(p, k) == p * k
  {
    if k > 0 {
      PeriodsIsProduct(p, k - 1);
      assert p * k == p * (k - 1) + p;
    }
  }

  lemma StrictlyLess(p: nat, x: nat, y: nat)
    requires x < y
    ensures p * x + p <= p * y
  {
    var d: nat := y - x - 1;
    assert p * y == p * (x + d + 1) == p * x + p * d + p;
    assert p * d >= 0;
  }

  lemma Quotient(n: nat, p: nat, k: nat, r: nat)
    requires n == p * k + r && r < p
    ensures n / p == k
  {
    var q := n / p;
    assert n == p * q + n % p;
    if q < k {
      StrictlyLess(p, q, k);
    } else if k < q {
      StrictlyLess(p, k, q);
    }
  }

  /** A timer just created or restarted fires in exactly one of every Period
      wakeups, whatever is done to the other timers meanwhile, as long as its
      own handle is not given out again. */
  lemma Periodic(s: TimerSet, ops: seq<Op>, h: Uint32)
    requires AtMostOnce(s.timers, h) && Has(s, h) && Untouched(ops, h)
    requires Get(s, h) == Reload(Get(s, h))
    requires Creations(ops) <= Spare(s, h)
    ensures Firings(s, ops, h) == Wakeups(ops) / Period(Get(s, h).interval)
  {
    var p := Period(Get(s, h).interval);
    FiringsAndRest(s, ops, h, p);
    PeriodsIsProduct(p, Firings(s, ops, h));
    Quotient(Wakeups(ops), p, Firings(s, ops, h), p - Left(Get(Run(s, ops), h)));
  }

  /** A timer's period in wakeups, one every 100 ms. */
  function Hundredths(interval: Uint32): nat { if interval < 100 then 0x1_0000_0000 else interval / 100 }

  lemma PeriodIs(interval: Uint32)
    ensures Period(interval) == Hundredths(interval)
  {
  }

  /** So a timer fires in exactly one of every Hundredths(interval) wakeups counted
      from its creation ... */
  lemma FiresFromCreation(s: TimerSet, interval: Uint32, ops: seq<Op>)
    requires NoHandle(s.timers, s.sequence) && Untouched(ops, s.sequence)
    requires Creations(ops) < WORD
    ensures Firings(Apply(s, Create(interval)), ops, s.sequence) == Wakeups(ops) / Hundredths(interval)
  {
    var h, s' := s.sequence, Apply(s, Create(interval));
    assert NoHandle(s.timers, h);
    SoleIndex(s'.timers, h, |s.timers|);
    SpareOfNew(s.sequence);
    Periodic(s', ops, h);
    PeriodIs(interval);
  }

  lemma SpareOfNew(h: Uint32)
    ensures (h - (h + 1) % WORD) % WORD == WORD - 1
  {
  }

  /** ... and counted from its last restart, with the interval it was created with. */
  lemma FiresFromRestart(s: TimerSet, h: Uint32, ops: seq<Op>)
    requires AtMostOnce(s.timers, h) && Has(s, h) && Untouched(ops, h)
    requires Creations(ops) <= Spare(s, h)
    ensures Firings(Apply(s, Restart(h)), ops, h) == Wakeups(ops) / Hundredths(Get(s, h).interval)
  {
    var s' := Apply(s, Restart(h));
    OnceKept(s, Restart(h), h);
    SoleIndex(s'.timers, h, IndexOf(s.timers, h));
    Periodic(s', ops, h);
    PeriodIs(Get(s, h).interval);
  }

  /** A restart or a destruction is of one timer: all others stay as they are. */
  lemma OthersStay(s: TimerSet, op: Op, h: Uint32)
    requires AtMostOnce(s.timers, h) && Has(s, h) && (op.Create? ==> s.sequence != h)
    requires op != Destroy(h) && op != Restart(h) && !op.Wakeup?
    ensures Has(Apply(s, op), h) && Get(Apply(s, op), h) == Get(s, h)
  {
    ApplyGet(s, op, h);
  }

  ghost predicate NoHandle(ts: seq<TimerRec>, h: Uint32) {
    forall k :: 0 <= k < |ts| ==> ts[k].handle != h
  }

  lemma {:induction false} NoFire(ts: seq<TimerRec>, h: Uint32)
    requires NoHandle(ts, h)
    ensures Count(FiredBy(ts), h) == 0
  {
    if ts != [] {
      var init, t := ts[..|ts| - 1], ts[|ts| - 1];
      NoFire(init, h);
      CountSnoc(FiredBy(init), t.handle, h);
      assert FiredBy(init) + [] == FiredBy(init);
    }
  }

  lemma NoHandleStep(s: TimerSet, op: Op, h: Uint32)
    requires NoHandle(s.timers, h) && (op.Create? ==> s.sequence != h)
    ensures NoHandle(Apply(s, op).timers, h)
  {
    match op
    case Create(_) =>
    case Destroy(g) =>
    case Restart(g) =>
    case Wakeup => TickAllAt(s.timers);
  }

  lemma DestroyRemoves(s: TimerSet, h: Uint32)
    requires AtMostOnce(s.timers, h)
    ensures NoHandle(Apply(s, Destroy(h)).timers, h)
  {
    NotBefore(s.timers, h);
    if Has(s, h) {
      Shifted(s.timers, IndexOf(s.timers, h));
    }
  }

  /** A destroyed timer never fires again, as long as its handle is not given
      out once more. */
  lemma {:induction false} SilentAfterDestroy(s: TimerSet, ops: seq<Op>, h: Uint32)
    requires AtMostOnce(s.timers, h) && Creations(ops) <= Spare(s, h)
    ensures var d := Apply(s, Destroy(h));
            NoHandle(Run(d, ops).timers, h) && Firings(d, ops, h) == 0
  {
    var d := Apply(s, Destroy(h));
    if ops == [] {
      DestroyRemoves(s, h);
    } else {
      var init, op := ops[..|ops| - 1], ops[|ops| - 1];
      assert ops == init + [op];
      NotReissued(d, init, op, h);
      SilentAfterDestroy(s, init, h);
      NoHandleStep(Run(d, init), op, h);
      NoFire(Run(d, init).timers, h);
    }
  }

  /** In a daemon that has created fewer than 2^32 timers all handles differ, so
      both statements hold of every one of them; and of a timer just created
      they hold until 2^32 - 1 more have been. */
  lemma HandlesDistinct(ops: seq<Op>, h: Uint32, interval: Uint32)
    requires Creations(ops) < WORD
    ensures AtMostOnce(Run(TimerSet([], 0), ops).timers, h)
    ensures var s := Run(TimerSet([], 0), ops);
            Spare(Apply(s, Create(interval)), s.sequence) == WORD - 1
  {
    HandlesValid(ops);
  }

  lemma {:induction false} HandlesValid(ops: seq<Op>)
    requires Creations(ops) < WORD
    ensures Valid(Run(TimerSet([], 0), ops)) && Run(TimerSet([], 0), ops).sequence == Creations(ops)
  {
    if ops != [] {
      HandlesValid(ops[..|ops| - 1]);
      ApplyValid(Run(TimerSet([], 0), ops[..|ops| - 1]), ops[|ops| - 1]);
    }
  }
}
