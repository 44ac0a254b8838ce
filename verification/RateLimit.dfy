/** Fixed-window rate limiting over a shared counter store whose keys expire
    (backend/app/auth/rate_limit.py).  Time is counted in milliseconds.  A check reads the clock and
    then makes three separate calls to the store; checks interleave freely between them. */
module RateLimit {
  import opened Text

  const SECOND := 1000

  // The counter store

  datatype Counter = Counter(value: nat, expiry: Option<nat>)

  type Counters = map<string, Counter>

  predicate Alive(c: Counters, key: string, now: nat) {
    key in c && (c[key].expiry.None? || now < c[key].expiry.value)
  }

  /** A key past its expiry counts as absent. */
  function Incremented(c: Counters, key: string, now: nat): Counters {
    if Alive(c, key, now) then c[key := c[key].(value := c[key].value + 1)] else c[key := Counter(1, None)]
  }

  function WithExpiry(c: Counters, key: string, seconds: nat, now: nat): Counters {
    if Alive(c, key, now) then c[key := c[key].(expiry := Some(now + seconds * SECOND))] else c
  }

  /** Seconds to go, to the nearest; -1 without an expiry, -2 without the key. */
  function Ttl(c: Counters, key: string, now: nat): int {
    if !Alive(c, key, now) then -2
    else if c[key].expiry.None? then -1
    else (c[key].expiry.value - now + SECOND / 2) / SECOND
  }

  class CounterStore {
    var counters: Counters

    constructor ()
      ensures counters == map[]
    {
      counters := map[];
    }

    method Incr(key: string, now: nat) returns (count: nat)
      modifies this
      ensures counters == Incremented(old(counters), key, now)
      ensures key in counters && count == counters[key].value
    {
      if key in counters && (counters[key].expiry.None? || now < counters[key].expiry.value) {
        count := counters[key].value + 1;
        counters := counters[key := counters[key].(value := count)];
      } else {
        count := 1;
        counters := counters[key := Counter(1, None)];
      }
    }

    method Expire(key: string, seconds: nat, now: nat) returns (found: bool)
      modifies this
      ensures counters == WithExpiry(old(counters), key, seconds, now)
      ensures found <==> Alive(old(counters), key, now)
    {
      found := key in counters && (counters[key].expiry.None? || now < counters[key].expiry.value);
      if found {
        counters := counters[key := counters[key].(expiry := Some(now + seconds * SECOND))];
      }
    }
  }

  // Keys

  function RedisKey(key: string, bucket: nat): string {
    "datapilot:rate:" + key + ":" + Decimal(bucket)
  }

  lemma {:induction false} LastSeparator(a: string, b: string, x: string, y: string)
    requires a + ":" + x == b + ":" + y
    requires forall i :: 0 <= i < |x| ==> IsDigit(x[i])
    requires forall i :: 0 <= i < |y| ==> IsDigit(y[i])
    ensures a == b && x == y
  {
    var s := a + ":" + x;
    assert s[|a|] == ':' && s[|b|] == (b + ":" + y)[|b|];
    assert |a| == |b|;
    assert a == s[..|a|] && b == s[..|b|];
    assert x == s[|a| + 1..] && y == (b + ":" + y)[|b| + 1..];
  }

  /** No two identities or buckets share a counter, whatever the identity's text. */
  lemma RedisKeyInjective(key: string, bucket: nat, key': string, bucket': nat)
    requires RedisKey(key, bucket) == RedisKey(key', bucket')
    ensures key == key' && bucket == bucket'
  {
    var head := "datapilot:rate:";
    assert RedisKey(key, bucket)[|head|..] == key + ":" + Decimal(bucket);
    assert RedisKey(key', bucket')[|head|..] == key' + ":" + Decimal(bucket');
    LastSeparator(key, key', Decimal(bucket), Decimal(bucket'));
    DecimalInjective(bucket, bucket');
  }

  // Checks under way

  datatype RateLimitResult = RateLimitResult(allowed: bool, limit: int, remaining: int, resetAfter: int)

  datatype Pc = ClockRead | Counted(count: nat) | Armed(count: nat) | Answered(result: RateLimitResult)

  datatype Check = Check(key: string, limit: int, readAt: nat, pc: Pc)

  /** History: every increment in the order the store made them; `check` is the one that made it, and
      `restarted` says that it met a counter that had expired. */
  datatype Entry = Entry(
    check: nat,
    key: string,
    bucket: nat,
    limit: int,
    readAt: nat,
    at: nat,
    count: nat,
    restarted: bool)

  datatype System = System(clock: nat, counters: Counters, checks: seq<Check>, log: seq<Entry>)

  const QUIET := System(0, map[], [], [])

  datatype Step = Pass(time: nat) | Begin(key: string, limit: int) | Proceed(i: nat)

  function Bucket(time: nat, window: nat): nat
    requires window > 0
  {
    time / (window * SECOND)
  }

  function At(s: System, i: nat, pc: Pc): System
    requires i < |s.checks|
  {
    s.(checks := s.checks[i := s.checks[i].(pc := pc)])
  }

  /** The counter has been used and is past its expiry: an increment would start it over. */
  predicate MeetsExpired(s: System, k: string) {
    k in s.counters && !Alive(s.counters, k, s.clock)
  }

  function Count(s: System, i: nat, window: nat): System
    requires window > 0 && i < |s.checks|
  {
    var me := s.checks[i];
    var bucket := Bucket(me.readAt, window);
    var k := RedisKey(me.key, bucket);
    var counters := Incremented(s.counters, k, s.clock);
    var count := counters[k].value;
    var entry := Entry(i, me.key, bucket, me.limit, me.readAt, s.clock, count, MeetsExpired(s, k));
    At(s.(counters := counters, log := s.log + [entry]), i, Counted(count))
  }

  function Arm(s: System, i: nat, window: nat): System
    requires window > 0 && i < |s.checks| && s.checks[i].pc.Counted?
  {
    var me := s.checks[i];
    var t :=
      if me.pc.count == 1
      then s.(counters := WithExpiry(s.counters, RedisKey(me.key, Bucket(me.readAt, window)), window, s.clock))
      else s;
    At(t, i, Armed(me.pc.count))
  }

  function ResetAfter(ttl: int, window: nat): int {
    var r := if ttl > 0 then ttl else window;
    if r > 1 then r else 1
  }

  function ResultOf(limit: int, count: nat, resetAfter: int): RateLimitResult {
    RateLimitResult(count <= limit, limit, if limit > count then limit - count else 0, resetAfter)
  }

  function Answer(s: System, i: nat, window: nat): System
    requires window > 0 && i < |s.checks| && s.checks[i].pc.Armed?
  {
    var me := s.checks[i];
    var ttl := Ttl(s.counters, RedisKey(me.key, Bucket(me.readAt, window)), s.clock);
    At(s, i, Answered(ResultOf(me.limit, me.pc.count, ResetAfter(ttl, window))))
  }

  function Next(s: System, step: Step, window: nat): System
    requires window > 0
  {
    match step
    case Pass(time) => s.(clock := s.clock + time)
    case Begin(key, limit) => s.(checks := s.checks + [Check(key, limit, s.clock, ClockRead)])
    case Proceed(i) =>
      if i >= |s.checks| then s
      else
        match s.checks[i].pc
        case ClockRead => Count(s, i, window)
        case Counted(_) => Arm(s, i, window)
        case Armed(_) => Answer(s, i, window)
        case Answered(_) => s
  }

  function RunTo(steps: seq<Step>, window: nat): System
    requires window > 0
  {
    if steps == [] then QUIET else Next(RunTo(steps[..|steps| - 1], window), steps[|steps| - 1], window)
  }

  /** The result is the one due to the check that made the increment `log[j]`: it may pass if its counter
      has been used at most `limit` times since it last started over, and is told how many uses that
      leaves. */
  predicate IsAnswerOf(r: RateLimitResult, log: seq<Entry>, j: nat)
    requires j < |log|
  {
    var used := SinceRestart(log[..j + 1], log[j].key, log[j].bucket);
    && r.limit == log[j].limit
    && (r.allowed <==> used <= r.limit)
    && (used <= r.limit ==> r.remaining == r.limit - used)
    && (used > r.limit ==> r.remaining == 0)
  }

  /** A check that nothing interrupts, begun when `s` is the state. */
  function Alone(s: System, key: string, limit: int, window: nat): System
    requires window > 0
  {
    var i := |s.checks|;
    Answer(Arm(Count(Next(s, Begin(key, limit), window), i, window), i, window), i, window)
  }

  /** The method as the source runs it: one increment, an expiry on first use, one look at the time to
      live. */
  method CheckLimit(store: CounterStore, key: string, limit: int, window: nat, now: nat, ghost s: System)
    returns (r: RateLimitResult)
    requires window > 0 && s.clock == now && s.counters == store.counters
    modifies store
    ensures var end := Alone(s, key, limit, window);
            && store.counters == end.counters
            && end.checks[|s.checks|].pc == Answered(r)
            && end.log == s.log + [end.log[|s.log|]]
            && end.log[|s.log|].check == |s.checks|
            && end.log[|s.log|].key == key && end.log[|s.log|].limit == limit
            && end.log[|s.log|].bucket == Bucket(now, window)
    ensures Invariant(s, window) ==>
              && Invariant(Alone(s, key, limit, window), window)
              && IsAnswerOf(r, Alone(s, key, limit, window).log, |s.log|)
  {
    hide RedisKey, Bucket, Invariant, IsAnswerOf;
    if Invariant(s, window) {
      AloneAnswers(s, key, limit, window);
    }
    var redisKey := RedisKey(key, Bucket(now, window));
    var count := store.Incr(redisKey, now);
    if count == 1 {
      var _ := store.Expire(redisKey, window, now);
    }
    var ttl := Ttl(store.counters, redisKey, now);
    var remaining := if limit - count > 0 then limit - count else 0;
    return RateLimitResult(count <= limit, limit, remaining, ResetAfter(ttl, window));
  }

  // The invariant

  function BucketEnd(bucket: nat, window: nat): nat {
    (bucket + 1) * (window * SECOND)
  }

  function Tally(log: seq<Entry>, key: string, bucket: nat): nat {
    if log == [] then 0
    else
      Tally(log[..|log| - 1], key, bucket)
      + (if log[|log| - 1].key == key && log[|log| - 1].bucket == bucket then 1 else 0)
  }

  /** The increments of a counter since it last started over, if it ever did. */
  function SinceRestart(log: seq<Entry>, key: string, bucket: nat): nat {
    if log == [] then 0
    else
      var earlier := SinceRestart(log[..|log| - 1], key, bucket);
      var last := log[|log| - 1];
      if last.key != key || last.bucket != bucket then earlier
      else if last.restarted then 1
      else earlier + 1
  }

  /** How often a counter has started over. */
  function Restarts(log: seq<Entry>, key: string, bucket: nat): nat {
    if log == [] then 0
    else
      var last := log[|log| - 1];
      Restarts(log[..|log| - 1], key, bucket)
      + (if last.key == key && last.bucket == bucket && last.restarted then 1 else 0)
  }

  /** A counter is there once it has been used, holds what came since it last started over, and does
      not expire while its bucket lasts. */
  predicate CounterRight(s: System, key: string, bucket: nat, window: nat) {
    var k := RedisKey(key, bucket);
    && (k in s.counters <==> Tally(s.log, key, bucket) > 0)
    && (k in s.counters ==>
          && s.counters[k].value == SinceRestart(s.log, key, bucket)
          && (s.counters[k].expiry.Some? ==> BucketEnd(bucket, window) <= s.counters[k].expiry.value))
  }

  predicate OnTime(e: Entry, window: nat) {
    e.at < BucketEnd(e.bucket, window)
  }

  predicate EntryRight(log: seq<Entry>, j: nat, window: nat)
    requires j < |log|
  {
    var e := log[j];
    && e.count == SinceRestart(log[..j + 1], e.key, e.bucket)
    && (e.restarted ==> Tally(log[..j], e.key, e.bucket) > 0 && !OnTime(e, window))
  }

  ghost predicate LogRight(log: seq<Entry>, window: nat)
    requires window > 0
  {
    && (forall j :: 0 <= j < |log| ==> EntryRight(log, j, window) && log[j].bucket == Bucket(log[j].readAt, window))
    && (forall i, j :: 0 <= i < j < |log| ==> log[i].at <= log[j].at)
  }

  ghost predicate Invariant(s: System, window: nat)
    requires window > 0
  {
    && (forall key, bucket :: CounterRight(s, key, bucket, window))
    && (forall i :: 0 <= i < |s.checks| ==> s.checks[i].readAt <= s.clock)
    && (forall j :: 0 <= j < |s.log| ==> s.log[j].at <= s.clock)
    && LogRight(s.log, window)
  }

  lemma ReadInsideBucket(time: nat, window: nat)
    requires window > 0
    ensures Bucket(time, window) * (window * SECOND) <= time < BucketEnd(Bucket(time, window), window)
  {
    var w := window * SECOND;
    assert time == w * (time / w) + time % w;
  }

  lemma OneMoreEntry(log: seq<Entry>, e: Entry, key: string, bucket: nat)
    ensures var mine := e.key == key && e.bucket == bucket;
            && Tally(log + [e], key, bucket) == Tally(log, key, bucket) + (if mine then 1 else 0)
            && Restarts(log + [e], key, bucket) == Restarts(log, key, bucket) + (if mine && e.restarted then 1 else 0)
            && SinceRestart(log + [e], key, bucket) ==
                 if !mine then SinceRestart(log, key, bucket)
                 else if e.restarted then 1
                 else SinceRestart(log, key, bucket) + 1
  {
    assert (log + [e])[..|log|] == log;
  }

  lemma {:induction false} SinceRestartBound(log: seq<Entry>, key: string, bucket: nat)
    ensures SinceRestart(log, key, bucket) <= Tally(log, key, bucket)
    ensures Restarts(log, key, bucket) == 0 ==> SinceRestart(log, key, bucket) == Tally(log, key, bucket)
  {
    if log != [] {
      SinceRestartBound(log[..|log| - 1], key, bucket);
    }
  }

  lemma CountKeepsCounter(s: System, i: nat, window: nat, key: string, bucket: nat)
    requires window > 0 && i < |s.checks|
    requires CounterRight(s, key, bucket, window)
    ensures CounterRight(Count(s, i, window), key, bucket, window)
  {
    hide Bucket, BucketEnd, RedisKey, Tally, SinceRestart;
    var me := s.checks[i];
    var mine := Bucket(me.readAt, window);
    OneMoreEntry(s.log, Count(s, i, window).log[|s.log|], key, bucket);
    SinceRestartBound(s.log, key, bucket);
    if RedisKey(key, bucket) == RedisKey(me.key, mine) {
      RedisKeyInjective(key, bucket, me.key, mine);
    }
  }

  /** What the new entry says. */
  lemma CountWritesRight(s: System, i: nat, window: nat)
    requires window > 0 && i < |s.checks|
    requires CounterRight(s, s.checks[i].key, Bucket(s.checks[i].readAt, window), window)
    ensures var e := Count(s, i, window).log[|s.log|];
            && e.at == s.clock && e.bucket == Bucket(e.readAt, window)
            && e.count == SinceRestart(s.log + [e], e.key, e.bucket)
            && (e.restarted ==> Tally(s.log, e.key, e.bucket) > 0 && !OnTime(e, window))
  {
    hide Bucket, BucketEnd, RedisKey, Tally, SinceRestart;
    var e := Count(s, i, window).log[|s.log|];
    OneMoreEntry(s.log, e, e.key, e.bucket);
    SinceRestartBound(s.log, e.key, e.bucket);
  }

  lemma {:induction false} OneMoreEntryRight(log: seq<Entry>, e: Entry, window: nat)
    requires window > 0 && LogRight(log, window)
    requires forall j :: 0 <= j < |log| ==> log[j].at <= e.at
    requires e.bucket == Bucket(e.readAt, window)
    requires e.count == SinceRestart(log + [e], e.key, e.bucket)
    requires e.restarted ==> Tally(log, e.key, e.bucket) > 0 && !OnTime(e, window)
    ensures LogRight(log + [e], window)
  {
    hide Bucket, BucketEnd, Tally, SinceRestart;
    var more := log + [e];
    forall j | 0 <= j < |more|
      ensures EntryRight(more, j, window)
    {
      if j < |log| {
        assert more[..j] == log[..j] && more[..j + 1] == log[..j + 1];
        assert EntryRight(log, j, window);
      } else {
        assert more[..j] == log && more[..j + 1] == more;
      }
    }
  }

  lemma CountKeeps(s: System, i: nat, window: nat)
    requires window > 0 && Invariant(s, window) && i < |s.checks|
    ensures Invariant(Count(s, i, window), window)
  {
    hide CounterRight, LogRight, Bucket, RedisKey, Tally, SinceRestart, OnTime, MeetsExpired;
    var t := Count(s, i, window);
    forall key, bucket
      ensures CounterRight(t, key, bucket, window)
    {
      CountKeepsCounter(s, i, window, key, bucket);
    }
    assert CounterRight(s, s.checks[i].key, Bucket(s.checks[i].readAt, window), window);
    CountWritesRight(s, i, window);
    OneMoreEntryRight(s.log, t.log[|s.log|], window);
  }

  lemma ArmKeeps(s: System, i: nat, window: nat)
    requires window > 0 && Invariant(s, window) && i < |s.checks| && s.checks[i].pc.Counted?
    ensures Invariant(Arm(s, i, window), window)
  {
    hide EntryRight, Tally, SinceRestart;
    var me := s.checks[i];
    var mine := Bucket(me.readAt, window);
    var t := Arm(s, i, window);
    ReadInsideBucket(me.readAt, window);
    assert BucketEnd(mine, window) <= s.clock + window * SECOND;
    hide Bucket, BucketEnd;
    forall key, bucket
      ensures CounterRight(t, key, bucket, window)
    {
      assert CounterRight(s, key, bucket, window);
      if RedisKey(key, bucket) == RedisKey(me.key, mine) {
        RedisKeyInjective(key, bucket, me.key, mine);
      }
    }
  }

  lemma NextKeeps(s: System, step: Step, window: nat)
    requires window > 0 && Invariant(s, window)
    ensures Invariant(Next(s, step, window), window)
  {
    hide Count, Arm, LogRight, CounterRight, BucketEnd, Bucket, RedisKey;
    match step {
      case Proceed(i) =>
        if i < |s.checks| {
          match s.checks[i].pc {
            case ClockRead => CountKeeps(s, i, window);
            case Counted(_) => ArmKeeps(s, i, window);
            case _ => SameStore(s, Next(s, step, window), window);
          }
        }
      case _ => SameStore(s, Next(s, step, window), window);
    }
  }

  lemma SameStore(s: System, t: System, window: nat)
    requires window > 0 && Invariant(s, window)
    requires t.counters == s.counters && t.log == s.log && s.clock <= t.clock
    requires forall i :: 0 <= i < |t.checks| ==> t.checks[i].readAt <= t.clock
    ensures Invariant(t, window)
  {
    hide BucketEnd, Tally, SinceRestart, RedisKey, LogRight;
    forall key, bucket
      ensures CounterRight(t, key, bucket, window)
    {
      assert CounterRight(s, key, bucket, window);
    }
  }

  lemma {:induction false} EveryRunKeeps(steps: seq<Step>, window: nat)
    requires window > 0
    ensures Invariant(RunTo(steps, window), window)
  {
    hide Next;
    if steps != [] {
      EveryRunKeeps(steps[..|steps| - 1], window);
      NextKeeps(RunTo(steps[..|steps| - 1], window), steps[|steps| - 1], window);
    }
  }

  // What is promised

  predicate Allowed(e: Entry) {
    e.count <= e.limit
  }

  /** In every run, with no condition: a check is allowed exactly when its counter has been used at most
      `limit` times since it last started over. */
  lemma AllowedIffWithinLimitSinceRestart(steps: seq<Step>, window: nat, j: nat)
    requires window > 0
    ensures var log := RunTo(steps, window).log;
            j < |log| ==> (Allowed(log[j]) <==> SinceRestart(log[..j + 1], log[j].key, log[j].bucket) <= log[j].limit)
  {
    hide RunTo, SinceRestart, Bucket;
    EveryRunKeeps(steps, window);
    var log := RunTo(steps, window).log;
    assert j < |log| ==> EntryRight(log, j, window);
  }

  lemma {:induction false} SinceRestartIsTallyIff(log: seq<Entry>, key: string, bucket: nat, window: nat)
    requires window > 0 && LogRight(log, window)
    ensures SinceRestart(log, key, bucket) == Tally(log, key, bucket) <==> Restarts(log, key, bucket) == 0
  {
    hide Bucket, BucketEnd;
    SinceRestartBound(log, key, bucket);
    if log != [] {
      LogRightPrefix(log, window);
      SinceRestartIsTallyIff(log[..|log| - 1], key, bucket, window);
      assert EntryRight(log, |log| - 1, window);
    }
  }

  /** A check's count is its place among all checks of its identity and bucket exactly when that counter
      has not started over up to it. */
  lemma CountIsPlaceIffNoRestart(steps: seq<Step>, window: nat, j: nat)
    requires window > 0
    ensures var log := RunTo(steps, window).log;
            j < |log| ==>
              (log[j].count == Tally(log[..j], log[j].key, log[j].bucket) + 1
               <==> Restarts(log[..j + 1], log[j].key, log[j].bucket) == 0)
  {
    hide RunTo, SinceRestart, Tally, Restarts, Bucket;
    EveryRunKeeps(steps, window);
    var log := RunTo(steps, window).log;
    if j < |log| {
      var e, upTo := log[j], log[..j + 1];
      assert EntryRight(log, j, window);
      LogRightUpTo(log, j + 1, window);
      SinceRestartIsTallyIff(upTo, e.key, e.bucket, window);
      assert upTo == log[..j] + [e];
      OneMoreEntry(log[..j], e, e.key, e.bucket);
    }
  }

  /** So of the checks of one identity in one bucket exactly the first `limit` are allowed, as long as
      their counter has not started over. */
  lemma AllowedIffAmongTheFirst(steps: seq<Step>, window: nat, j: nat)
    requires window > 0
    ensures var log := RunTo(steps, window).log;
            j < |log| && Restarts(log[..j + 1], log[j].key, log[j].bucket) == 0 ==>
              (Allowed(log[j]) <==> Tally(log[..j], log[j].key, log[j].bucket) < log[j].limit)
  {
    hide RunTo, Tally, Restarts;
    CountIsPlaceIffNoRestart(steps, window, j);
  }

  /** The guard of an increment that starts its counter over. */
  predicate StartsOver(s: System, step: Step, window: nat)
    requires window > 0
  {
    && step.Proceed? && step.i < |s.checks| && s.checks[step.i].pc.ClockRead?
    && MeetsExpired(s, RedisKey(s.checks[step.i].key, Bucket(s.checks[step.i].readAt, window)))
  }

  ghost predicate NothingStartsOver(steps: seq<Step>, window: nat)
    requires window > 0
  {
    forall k :: 0 <= k < |steps| ==> !StartsOver(RunTo(steps[..k], window), steps[k], window)
  }

  predicate NoneRestarted(log: seq<Entry>) {
    forall j :: 0 <= j < |log| ==> !log[j].restarted
  }

  lemma NextLogs(s: System, step: Step, window: nat)
    requires window > 0
    ensures NoneRestarted(Next(s, step, window).log) <==> NoneRestarted(s.log) && !StartsOver(s, step, window)
  {
    hide RedisKey, Bucket, MeetsExpired, Incremented, WithExpiry, Ttl;
    var log := Next(s, step, window).log;
    assert forall j :: 0 <= j < |s.log| ==> log[j] == s.log[j];
    if step.Proceed? && step.i < |s.checks| && s.checks[step.i].pc.ClockRead? {
      assert |log| == |s.log| + 1 && log[|s.log|].restarted == StartsOver(s, step, window);
    } else {
      assert log == s.log;
    }
  }

  lemma StartsOverOneMore(steps: seq<Step>, window: nat)
    requires window > 0 && steps != []
    ensures var n := |steps| - 1;
            NothingStartsOver(steps, window) <==>
              NothingStartsOver(steps[..n], window) && !StartsOver(RunTo(steps[..n], window), steps[n], window)
  {
    hide RunTo, StartsOver;
    var n := |steps| - 1;
    var before := steps[..n];
    assert forall k :: 0 <= k < n ==> before[..k] == steps[..k] && before[k] == steps[k];
    assert forall k :: 0 <= k < n ==>
        (StartsOver(RunTo(before[..k], window), before[k], window)
         <==> StartsOver(RunTo(steps[..k], window), steps[k], window));
  }

  lemma {:induction false} RestartsAreStartsOver(steps: seq<Step>, window: nat)
    requires window > 0
    ensures NoneRestarted(RunTo(steps, window).log) <==> NothingStartsOver(steps, window)
  {
    hide Next, StartsOver, NoneRestarted;
    if steps == [] {
      EmptyLogHasNoRestart();
    } else {
      hide NothingStartsOver;
      var n := |steps| - 1;
      RestartsAreStartsOver(steps[..n], window);
      NextLogs(RunTo(steps[..n], window), steps[n], window);
      StartsOverOneMore(steps, window);
    }
  }

  lemma EmptyLogHasNoRestart()
    ensures NoneRestarted([])
  {
  }

  predicate EveryCountIsItsPlace(log: seq<Entry>) {
    forall j :: 0 <= j < |log| ==> log[j].count == Tally(log[..j], log[j].key, log[j].bucket) + 1
  }

  lemma {:induction false} NoRestartsIff(log: seq<Entry>, key: string, bucket: nat)
    ensures Restarts(log, key, bucket) == 0 <==>
            forall i :: 0 <= i < |log| && log[i].key == key && log[i].bucket == bucket ==> !log[i].restarted
  {
    if log != [] {
      var before := log[..|log| - 1];
      NoRestartsIff(before, key, bucket);
      assert forall i :: 0 <= i < |before| ==> before[i] == log[i];
    }
  }

  /** The exact condition: over a whole run every check is counted in its place if and only if no
      increment meets an expired counter. */
  lemma ExactIffNothingStartsOver(steps: seq<Step>, window: nat)
    requires window > 0
    ensures EveryCountIsItsPlace(RunTo(steps, window).log) <==> NothingStartsOver(steps, window)
  {
    hide RunTo, NothingStartsOver, Tally, Restarts;
    RestartsAreStartsOver(steps, window);
    var log := RunTo(steps, window).log;
    forall j | 0 <= j < |log|
      ensures log[j].restarted ==> log[j].count != Tally(log[..j], log[j].key, log[j].bucket) + 1
      ensures NoneRestarted(log) ==> log[j].count == Tally(log[..j], log[j].key, log[j].bucket) + 1
    {
      CountIsPlaceIffNoRestart(steps, window, j);
      NoRestartsIff(log[..j + 1], log[j].key, log[j].bucket);
      assert log[..j + 1][j] == log[j];
    }
  }

  /** Only an increment that reaches the store after its bucket can start a counter over; a check in
      time therefore always has its place. */
  lemma OnTimeHasItsPlace(steps: seq<Step>, window: nat, j: nat)
    requires window > 0
    ensures var log := RunTo(steps, window).log;
            j < |log| && OnTime(log[j], window) ==>
              && !log[j].restarted
              && Restarts(log[..j + 1], log[j].key, log[j].bucket) == 0
              && log[j].count == Tally(log[..j], log[j].key, log[j].bucket) + 1
  {
    hide RunTo, Tally, Restarts, SinceRestart, Bucket, BucketEnd;
    EveryRunKeeps(steps, window);
    var log := RunTo(steps, window).log;
    if j < |log| && OnTime(log[j], window) {
      forall i | 0 <= i <= j && log[i].bucket == log[j].bucket
        ensures !log[i].restarted
      {
        assert EntryRight(log, i, window) && log[i].at <= log[j].at;
      }
      NoRestartsIff(log[..j + 1], log[j].key, log[j].bucket);
      CountIsPlaceIffNoRestart(steps, window, j);
    }
  }

  predicate Admitted(e: Entry, key: string) {
    e.key == key && Allowed(e)
  }

  function AdmittedIn(log: seq<Entry>, key: string, bucket: nat): nat {
    if log == [] then 0
    else
      AdmittedIn(log[..|log| - 1], key, bucket)
      + (if Admitted(log[|log| - 1], key) && log[|log| - 1].bucket == bucket then 1 else 0)
  }

  /** Those whose clock reading lies in the window-long interval from `from`. */
  function AdmittedDuring(log: seq<Entry>, key: string, from: nat, window: nat): nat {
    if log == [] then 0
    else
      var e := log[|log| - 1];
      AdmittedDuring(log[..|log| - 1], key, from, window)
      + (if Admitted(e, key) && from <= e.readAt < from + window * SECOND then 1 else 0)
  }

  lemma LogRightUpTo(log: seq<Entry>, n: nat, window: nat)
    requires window > 0 && n <= |log| && LogRight(log, window)
    ensures LogRight(log[..n], window)
  {
    hide Tally, SinceRestart, Bucket, OnTime;
    var before := log[..n];
    forall j | 0 <= j < n
      ensures EntryRight(before, j, window)
    {
      assert before[..j] == log[..j] && before[..j + 1] == log[..j + 1];
      assert EntryRight(log, j, window);
    }
  }

  lemma LogRightPrefix(log: seq<Entry>, window: nat)
    requires window > 0 && log != [] && LogRight(log, window)
    ensures LogRight(log[..|log| - 1], window)
  {
    hide LogRight;
    LogRightUpTo(log, |log| - 1, window);
  }

  function Min(a: nat, b: nat): nat {
    if a <= b then a else b
  }

  /** Between two restarts a counter admits at most `limit`. */
  lemma {:induction false} AtMostLimitPerRestart(log: seq<Entry>, key: string, bucket: nat, limit: nat, window: nat)
    requires window > 0 && LogRight(log, window)
    requires forall j :: 0 <= j < |log| ==> log[j].limit <= limit
    ensures AdmittedIn(log, key, bucket)
       <= limit * Restarts(log, key, bucket) + Min(SinceRestart(log, key, bucket), limit)
  {
    hide Bucket, BucketEnd, Tally;
    if log != [] {
      var before, e := log[..|log| - 1], log[|log| - 1];
      LogRightPrefix(log, window);
      AtMostLimitPerRestart(before, key, bucket, limit, window);
      assert EntryRight(log, |log| - 1, window) && log[..|log|] == log;
      hide LogRight, EntryRight;
      OneMoreTime(limit, Restarts(before, key, bucket));
      assert AdmittedIn(log, key, bucket) <= AdmittedIn(before, key, bucket) + 1;
    }
  }

  lemma OneMoreTime(limit: nat, times: nat)
    ensures limit * (times + 1) == limit * times + limit
  {
  }

  lemma DivisionBounds(time: nat, w: nat)
    requires w > 0
    ensures w * (time / w) <= time < w * (time / w) + w
  {
  }

  lemma {:induction false} MultipleGrows(w: nat, x: nat, y: nat)
    requires x < y
    ensures w * x + w <= w * y
    decreases y
  {
    assert w * y == w * (y - 1) + w;
    if x < y - 1 {
      MultipleGrows(w, x, y - 1);
    }
  }

  lemma NeighbouringMultiples(w: nat, a: nat, b: nat, from: nat, time: nat)
    requires w * a <= from < w * a + w && w * b <= time < w * b + w
    requires from <= time < from + w
    ensures b == a || b == a + 1
  {
    if b < a {
      MultipleGrows(w, b, a);
    } else if a + 1 < b {
      MultipleGrows(w, a, a + 1);
      MultipleGrows(w, a + 1, b);
    }
  }

  lemma {:induction false} QuotientsAreNeighbours(from: nat, time: nat, w: nat)
    requires from <= time < from + w
    ensures time / w == from / w || time / w == from / w + 1
  {
    var a, b := from / w, time / w;
    DivisionBounds(from, w);
    DivisionBounds(time, w);
    NeighbouringMultiples(w, a, b, from, time);
  }

  lemma {:induction false} IntervalMeetsTwoBuckets(from: nat, time: nat, window: nat)
    requires window > 0 && from <= time < from + window * SECOND
    ensures Bucket(time, window) == Bucket(from, window) || Bucket(time, window) == Bucket(from, window) + 1
  {
    QuotientsAreNeighbours(from, time, window * SECOND);
  }

  lemma {:induction false} DuringIsTwoBuckets(log: seq<Entry>, key: string, from: nat, window: nat)
    requires window > 0 && LogRight(log, window)
    ensures AdmittedDuring(log, key, from, window) <=
            AdmittedIn(log, key, Bucket(from, window)) + AdmittedIn(log, key, Bucket(from, window) + 1)
  {
    hide Bucket, Admitted, EntryRight;
    if log != [] {
      LogRightPrefix(log, window);
      DuringIsTwoBuckets(log[..|log| - 1], key, from, window);
      var e := log[|log| - 1];
      if from <= e.readAt < from + window * SECOND {
        IntervalMeetsTwoBuckets(from, e.readAt, window);
      }
    }
  }

  lemma AtMostLimitTimes(log: seq<Entry>, key: string, bucket: nat, limit: nat, window: nat)
    requires window > 0 && LogRight(log, window)
    requires forall j :: 0 <= j < |log| ==> log[j].limit <= limit
    ensures AdmittedIn(log, key, bucket) <= limit * (Restarts(log, key, bucket) + 1)
  {
    hide LogRight;
    AtMostLimitPerRestart(log, key, bucket, limit, window);
    OneMoreTime(limit, Restarts(log, key, bucket));
  }

  /** Any half-open interval of one window admits, per identity, at most twice the limit and once more
      for every time one of its two counters started over. */
  lemma AtMostTwiceTheLimit(steps: seq<Step>, window: nat, key: string, from: nat, limit: nat)
    requires window > 0
    requires forall j :: 0 <= j < |RunTo(steps, window).log| ==> RunTo(steps, window).log[j].limit <= limit
    ensures var log := RunTo(steps, window).log;
            var b := Bucket(from, window);
            && AdmittedDuring(log, key, from, window)
               <= limit * (Restarts(log, key, b) + 1) + limit * (Restarts(log, key, b + 1) + 1)
            && (Restarts(log, key, b) == 0 && Restarts(log, key, b + 1) == 0 ==>
                  AdmittedDuring(log, key, from, window) <= 2 * limit)
  {
    hide RunTo, Bucket, AdmittedDuring, AdmittedIn, Restarts, LogRight;
    EveryRunKeeps(steps, window);
    var log := RunTo(steps, window).log;
    DuringIsTwoBuckets(log, key, from, window);
    AtMostLimitTimes(log, key, Bucket(from, window), limit, window);
    AtMostLimitTimes(log, key, Bucket(from, window) + 1, limit, window);
  }

  /** A counter never expires inside its own bucket. */
  lemma NoExpiryInsideBucket(steps: seq<Step>, window: nat, key: string, bucket: nat)
    requires window > 0
    ensures var s := RunTo(steps, window);
            s.clock < BucketEnd(bucket, window) && RedisKey(key, bucket) in s.counters ==>
              Alive(s.counters, RedisKey(key, bucket), s.clock)
  {
    EveryRunKeeps(steps, window);
    assert CounterRight(RunTo(steps, window), key, bucket, window);
  }

  /** Starting over does happen: an increment delayed past its bucket's end meets an expired counter, and
      with a limit of one both checks of the bucket are let through. */
  lemma LateIncrementStartsOver(key: string)
    ensures var asked := Next(Next(QUIET, Begin(key, 1), 1), Begin(key, 1), 1);
            var expired := Next(Next(Next(asked, Proceed(0), 1), Proceed(0), 1), Pass(1000), 1);
            var log := Next(expired, Proceed(1), 1).log;
            && |log| == 2 && log[0].bucket == log[1].bucket == 0
            && Allowed(log[0]) && Allowed(log[1])
            && StartsOver(expired, Proceed(1), 1) && log[1].restarted
  {
    hide RedisKey;
    var k := RedisKey(key, 0);
    var asked := Next(Next(QUIET, Begin(key, 1), 1), Begin(key, 1), 1);
    assert asked == System(0, map[], [Check(key, 1, 0, ClockRead), Check(key, 1, 0, ClockRead)], []);
    var counted := Next(asked, Proceed(0), 1);
    assert counted.counters == map[k := Counter(1, None)];
    assert counted.log == [Entry(0, key, 0, 1, 0, 0, 1, false)];
    var armed := Next(counted, Proceed(0), 1);
    assert armed.counters == map[k := Counter(1, Some(1000))];
  }

  // The advertised wait

  ghost predicate WaitsRight(s: System, window: nat) {
    && (forall k :: k in s.counters && s.counters[k].expiry.Some? ==>
          s.counters[k].expiry.value <= s.clock + window * SECOND)
    && (forall i :: 0 <= i < |s.checks| && s.checks[i].pc.Answered? ==> 1 <= s.checks[i].pc.result.resetAfter <= window)
  }

  lemma TtlWithinWindow(c: Counters, key: string, now: nat, window: nat)
    requires window > 0
    requires key in c && c[key].expiry.Some? ==> c[key].expiry.value <= now + window * SECOND
    ensures Ttl(c, key, now) <= window
  {
  }

  /** An increment that arrives after its bucket, but before the counter expires, is still counted in its
      place. */
  lemma LateIncrementCanBeInPlace(key: string)
    ensures var asked := Next(Next(Next(Next(QUIET, Begin(key, 1), 1), Pass(900), 1), Proceed(0), 1), Proceed(0), 1);
            var late := Next(Next(Next(asked, Pass(99), 1), Begin(key, 1), 1), Pass(101), 1);
            var log := Next(late, Proceed(1), 1).log;
            && |log| == 2 && log[1].bucket == 0 && !OnTime(log[1], 1)
            && log[1].count == 2 && !log[1].restarted && !Allowed(log[1])
  {
    hide RedisKey;
    var k := RedisKey(key, 0);
    var read := Next(Next(QUIET, Begin(key, 1), 1), Pass(900), 1);
    assert read == System(900, map[], [Check(key, 1, 0, ClockRead)], []);
    var counted := Next(read, Proceed(0), 1);
    assert counted.counters == map[k := Counter(1, None)];
    assert counted.log == [Entry(0, key, 0, 1, 0, 900, 1, false)];
    var armed := Next(counted, Proceed(0), 1);
    assert armed.counters == map[k := Counter(1, Some(1900))];
    var late := Next(Next(Next(armed, Pass(99), 1), Begin(key, 1), 1), Pass(101), 1);
    assert late.clock == 1100 && late.checks[1] == Check(key, 1, 999, ClockRead);
  }

  lemma NextKeepsWaits(s: System, step: Step, window: nat)
    requires window > 0 && WaitsRight(s, window)
    ensures WaitsRight(Next(s, step, window), window)
  {
    hide RedisKey, Bucket, Ttl;
    if step.Proceed? && step.i < |s.checks| && s.checks[step.i].pc.Armed? {
      var me := s.checks[step.i];
      TtlWithinWindow(s.counters, RedisKey(me.key, Bucket(me.readAt, window)), s.clock, window);
    }
  }

  /** A client is told to wait at least one second and never longer than the window. */
  lemma {:induction false} WaitIsWithinWindow(steps: seq<Step>, window: nat, i: nat)
    requires window > 0
    ensures WaitsRight(RunTo(steps, window), window)
    ensures var checks := RunTo(steps, window).checks;
            i < |checks| && checks[i].pc.Answered? ==> 1 <= checks[i].pc.result.resetAfter <= window
  {
    hide Next;
    if steps != [] {
      WaitIsWithinWindow(steps[..|steps| - 1], window, i);
      NextKeepsWaits(RunTo(steps[..|steps| - 1], window), steps[|steps| - 1], window);
    }
  }

  /** The seconds named are those until the counter expires, to the nearest; the whole window if it has no
      expiry, is gone, or has less than half a second left. */
  lemma WaitIsTheTimeToLive(s: System, i: nat, window: nat)
    requires window > 0 && i < |s.checks| && s.checks[i].pc.Armed?
    ensures var k := RedisKey(s.checks[i].key, Bucket(s.checks[i].readAt, window));
            var wait := Answer(s, i, window).checks[i].pc.result.resetAfter;
            if k in s.counters && s.counters[k].expiry.Some? && s.counters[k].expiry.value - s.clock >= SECOND / 2 then
              var left := s.counters[k].expiry.value - s.clock;
              wait * SECOND - SECOND / 2 <= left < wait * SECOND + SECOND / 2
            else wait == window
  {
    hide RedisKey, Bucket;
  }

  /** A counter gets its expiry from the check that counted one, a window after the clock of that moment,
      and from no other; an increment only ever takes an expiry away, by starting the counter over. */
  lemma OnlyTheFirstCountSetsTheExpiry(s: System, step: Step, window: nat, k: string)
    requires window > 0 && k in Next(s, step, window).counters
    ensures var now := Next(s, step, window).counters[k].expiry;
            var before := if k in s.counters then s.counters[k].expiry else None;
            var sets := step.Proceed? && step.i < |s.checks| && s.checks[step.i].pc == Counted(1)
                        && k == RedisKey(s.checks[step.i].key, Bucket(s.checks[step.i].readAt, window))
                        && Alive(s.counters, k, s.clock);
            && (sets ==> now == Some(s.clock + window * SECOND))
            && (!sets ==> now == before || (now.None? && MeetsExpired(s, k)))
  {
    hide RedisKey, Bucket;
  }

  // What each check is told

  /** The increment of check `i` is entry `j`: a check has one once it has counted, and its count and
      later its answer are those of that entry. */
  predicate MadeBy(s: System, i: nat, j: nat, window: nat)
    requires window > 0 && i < |s.checks|
  {
    var me := s.checks[i];
    && j < |s.log| && s.log[j].check == i
    && s.log[j].key == me.key && s.log[j].limit == me.limit && s.log[j].readAt == me.readAt
    && match me.pc {
         case ClockRead => false
         case Counted(count) => count == s.log[j].count
         case Armed(count) => count == s.log[j].count
         case Answered(r) => r == ResultOf(me.limit, s.log[j].count, r.resetAfter)
       }
  }

  ghost predicate AnswersRight(s: System, window: nat)
    requires window > 0
  {
    && (forall j :: 0 <= j < |s.log| ==> s.log[j].check < |s.checks| && MadeBy(s, s.log[j].check, j, window))
    && (forall i :: 0 <= i < |s.checks| && !s.checks[i].pc.ClockRead? ==> exists j :: MadeBy(s, i, j, window))
    && (forall j, j' :: 0 <= j < j' < |s.log| ==> s.log[j].check != s.log[j'].check)
  }

  lemma CountKeepsAnswers(s: System, i: nat, window: nat)
    requires window > 0 && AnswersRight(s, window) && i < |s.checks| && s.checks[i].pc.ClockRead?
    ensures AnswersRight(Count(s, i, window), window)
  {
    hide RedisKey, Bucket, Incremented, MeetsExpired;
    var t := Count(s, i, window);
    assert MadeBy(t, i, |s.log|, window);
    forall j | 0 <= j < |s.log|
      ensures s.log[j].check != i && MadeBy(t, s.log[j].check, j, window)
    {
      assert MadeBy(s, s.log[j].check, j, window);
    }
    forall h | 0 <= h < |t.checks| && !t.checks[h].pc.ClockRead?
      ensures exists j :: MadeBy(t, h, j, window)
    {
      if h != i {
        var j :| MadeBy(s, h, j, window);
        assert MadeBy(t, h, j, window);
      }
    }
  }

  lemma SameLogKeepsAnswers(s: System, t: System, window: nat)
    requires window > 0 && AnswersRight(s, window) && t.log == s.log && |s.checks| <= |t.checks|
    requires forall i, j :: 0 <= i < |s.checks| && MadeBy(s, i, j, window) ==> MadeBy(t, i, j, window)
    requires forall i :: 0 <= i < |s.checks| && s.checks[i].pc.ClockRead? ==> t.checks[i].pc.ClockRead?
    requires forall i :: |s.checks| <= i < |t.checks| ==> t.checks[i].pc.ClockRead?
    ensures AnswersRight(t, window)
  {
    hide MadeBy;
    forall i | 0 <= i < |t.checks| && !t.checks[i].pc.ClockRead?
      ensures exists j :: MadeBy(t, i, j, window)
    {
      var j :| MadeBy(s, i, j, window);
      assert MadeBy(t, i, j, window);
    }
  }

  lemma NextKeepsAnswers(s: System, step: Step, window: nat)
    requires window > 0 && AnswersRight(s, window)
    ensures AnswersRight(Next(s, step, window), window)
  {
    hide AnswersRight, Count, RedisKey, Bucket, ResetAfter, Ttl, WithExpiry;
    if step.Proceed? && step.i < |s.checks| && s.checks[step.i].pc.ClockRead? {
      CountKeepsAnswers(s, step.i, window);
    } else {
      SameLogKeepsAnswers(s, Next(s, step, window), window);
    }
  }

  lemma {:induction false} EveryRunAnswersRight(steps: seq<Step>, window: nat)
    requires window > 0
    ensures AnswersRight(RunTo(steps, window), window)
  {
    hide Next;
    if steps != [] {
      EveryRunAnswersRight(steps[..|steps| - 1], window);
      NextKeepsAnswers(RunTo(steps[..|steps| - 1], window), steps[|steps| - 1], window);
    }
  }

  /** In every run, however checks interleave: an answered check has made exactly one increment, of the
      counter of its identity and bucket, and what it is told is what is due to that increment. */
  lemma EveryAnswerIsDue(steps: seq<Step>, window: nat, i: nat)
    requires window > 0
    ensures var s := RunTo(steps, window);
            i < |s.checks| && s.checks[i].pc.Answered? ==>
              && (exists j :: 0 <= j < |s.log| && s.log[j].check == i)
              && (forall j :: 0 <= j < |s.log| && s.log[j].check == i ==>
                    && s.log[j].key == s.checks[i].key && s.log[j].limit == s.checks[i].limit
                    && s.log[j].bucket == Bucket(s.checks[i].readAt, window)
                    && IsAnswerOf(s.checks[i].pc.result, s.log, j)
                    && (forall h :: 0 <= h < |s.log| && s.log[h].check == i ==> h == j))
  {
    hide RunTo, Bucket, SinceRestart, CounterRight;
    EveryRunKeeps(steps, window);
    EveryRunAnswersRight(steps, window);
    var s := RunTo(steps, window);
    if i < |s.checks| && s.checks[i].pc.Answered? {
      var j :| MadeBy(s, i, j, window);
      assert EntryRight(s.log, j, window);
    }
  }

  lemma AloneAnswers(s: System, key: string, limit: int, window: nat)
    requires window > 0 && Invariant(s, window)
    ensures var end := Alone(s, key, limit, window);
            && Invariant(end, window)
            && |end.log| == |s.log| + 1
            && end.checks[|s.checks|].pc.Answered?
            && IsAnswerOf(end.checks[|s.checks|].pc.result, end.log, |s.log|)
  {
    hide CounterRight, LogRight, Bucket, RedisKey, ResetAfter, Ttl, WithExpiry, Incremented, MeetsExpired, SinceRestart;
    var i := |s.checks|;
    var begun := Next(s, Begin(key, limit), window);
    NextKeeps(s, Begin(key, limit), window);
    CountKeeps(begun, i, window);
    var counted := Count(begun, i, window);
    ArmKeeps(counted, i, window);
    var armed := Arm(counted, i, window);
    NextKeeps(armed, Proceed(i), window);
    LastEntryRight(Answer(armed, i, window), window);
    assert armed.log[..|s.log| + 1] == armed.log;
  }

  lemma LastEntryRight(s: System, window: nat)
    requires window > 0 && Invariant(s, window) && s.log != []
    ensures var e := s.log[|s.log| - 1]; e.count == SinceRestart(s.log, e.key, e.bucket)
  {
    hide CounterRight, SinceRestart, Bucket;
    assert EntryRight(s.log, |s.log| - 1, window);
    assert s.log[..|s.log|] == s.log;
  }
}
