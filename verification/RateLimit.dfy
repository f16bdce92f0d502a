/** The fixed-window limiter (`rate_limit.py`): INCR, then EXPIRE NX, on counters that
    expire, with requests of all kinds interleaved at Redis and any EXPIRE lost. */
module RateLimit {
  import opened Wrappers
  import opened RateKeys

  const TTL_WINDOW_MULTIPLIER := 2
  /** Clock readings and Redis times are in microseconds. */
  const MICROS := 1_000_000

  datatype Rule = Rule(bucket: string, limit: nat, windowSeconds: nat)

  datatype Counter = Counter(count: nat, expireAt: Option<nat>)

  type Db = map<string, Counter>

  predicate Live(db: Db, key: string, at: nat) {
    key in db && (db[key].expireAt.None? || at < db[key].expireAt.value)
  }

  function Incr(db: Db, key: string, at: nat): Db {
    if Live(db, key, at) then db[key := Counter(db[key].count + 1, db[key].expireAt)] else db[key := Counter(1, None)]
  }

  function ExpireNx(db: Db, key: string, seconds: nat, at: nat): Db {
    if Live(db, key, at) && db[key].expireAt.None? then db[key := Counter(db[key].count, Some(at + seconds * MICROS))] else db
  }

  function Index(read: nat, windowSeconds: nat): nat
    requires windowSeconds > 0
  {
    (read / MICROS) / windowSeconds
  }

  // ---- in place --------------------------------------------------------------------------

  class Redis {
    var counters: Db

    constructor ()
      ensures counters == map[]
    {
      counters := map[];
    }

    method Increment(key: string, at: nat) returns (count: nat)
      modifies this
      ensures counters == Incr(old(counters), key, at) && count == counters[key].count
    {
      if key in counters && (counters[key].expireAt.None? || at < counters[key].expireAt.value) {
        counters := counters[key := Counter(counters[key].count + 1, counters[key].expireAt)];
      } else {
        counters := counters[key := Counter(1, None)];
      }
      count := counters[key].count;
    }

    method Expire(key: string, seconds: nat, at: nat)
      modifies this
      ensures counters == ExpireNx(old(counters), key, seconds, at)
    {
      if key in counters {
        var live := counters[key].expireAt.None? || at < counters[key].expireAt.value;
        if live && counters[key].expireAt.None? {
          counters := counters[key := Counter(counters[key].count, Some(at + seconds * MICROS))];
        }
      }
    }
  }

  class RedisFixedWindowLimiter {
    const redis: Redis

    constructor (redis: Redis)
      ensures this.redis == redis
    {
      this.redis := redis;
    }

    /** `read` is the clock reading, `at` when Redis ran the INCR and `armed` when it ran
        the EXPIRE.  The EXPIRE is sent for refused requests too. */
    method Check(bucket: string, identifier: string, limit: nat, windowSeconds: nat, read: nat, at: nat, armed: nat)
      returns (r: Result<(), string>)
      requires windowSeconds > 0
      modifies redis
      ensures var key := Key(bucket, identifier, Index(read, windowSeconds));
        var counted := Incr(old(redis.counters), key, at);
        && redis.counters == ExpireNx(counted, key, windowSeconds * TTL_WINDOW_MULTIPLIER, armed)
        && r == if counted[key].count > limit then Failure(bucket) else Success(())
    {
      var windowIndex := read / MICROS / windowSeconds;
      var key := Key(bucket, identifier, windowIndex);
      var count := redis.Increment(key, at);
      redis.Expire(key, windowSeconds * TTL_WINDOW_MULTIPLIER, armed);
      if count > limit {
        return Failure(bucket);
      }
      return Success(());
    }
  }

  // ---- what Redis sees over a run -----------------------------------------------------------

  /** One command as Redis executes it.  A crash between the two is a Hit without its Arm. */
  datatype Op =
    | Hit(rule: Rule, identifier: string, read: nat, at: nat)
    | Arm(rule: Rule, identifier: string, index: nat, at: nat)

  function Start(rule: Rule, index: nat): nat {
    index * rule.windowSeconds * MICROS
  }

  function OpIndex(op: Op): nat
    requires op.rule.windowSeconds > 0
  {
    if op.Hit? then Index(op.read, op.rule.windowSeconds) else op.index
  }

  /** One rule per bucket, with one colon in its name. */
  ghost predicate Table(rules: set<Rule>) {
    && (forall r :: r in rules ==> OneColon(r.bucket) && r.limit >= 1 && r.windowSeconds >= 1)
    && forall r, q :: r in rules && q in rules && r.bucket == q.bucket ==> r == q
  }

  /** An INCR reaches Redis before the window after the one it was read in is over, and an
      EXPIRE does not come before its window. */
  predicate Timely(op: Op)
    requires op.rule.windowSeconds > 0
  {
    if op.Hit? then op.at < Start(op.rule, OpIndex(op) + 2) else Start(op.rule, op.index) <= op.at
  }

  ghost predicate Orderly(rules: set<Rule>, ops: seq<Op>) {
    Table(rules) && forall op :: op in ops ==> op.rule in rules && Timely(op)
  }

  function Step(db: Db, op: Op): Db
    requires op.rule.windowSeconds > 0
  {
    var key := Key(op.rule.bucket, op.identifier, OpIndex(op));
    if op.Hit? then Incr(db, key, op.at) else ExpireNx(db, key, op.rule.windowSeconds * TTL_WINDOW_MULTIPLIER, op.at)
  }

  ghost function After(rules: set<Rule>, ops: seq<Op>): Db
    requires Orderly(rules, ops)
  {
    if ops == [] then map[] else Step(After(rules, ops[..|ops| - 1]), ops[|ops| - 1])
  }

  predicate Of(op: Op, rule: Rule, identifier: string, index: nat)
    requires op.rule.windowSeconds > 0
  {
    op.rule == rule && op.identifier == identifier && OpIndex(op) == index
  }

  /** How many requests of one bucket and identifier were counted in one window. */
  ghost function Hits(rules: set<Rule>, ops: seq<Op>, rule: Rule, identifier: string, index: nat): nat
    requires Orderly(rules, ops)
  {
    if ops == [] then 0
    else
      var op := ops[|ops| - 1];
      Hits(rules, ops[..|ops| - 1], rule, identifier, index) + if op.Hit? && Of(op, rule, identifier, index) then 1 else 0
  }

  ghost predicate Admits(db: Db, op: Op)
    requires op.rule.windowSeconds > 0
  {
    op.Hit? && Step(db, op)[Key(op.rule.bucket, op.identifier, OpIndex(op))].count <= op.rule.limit
  }

  /** How many of those were let through. */
  ghost function Admitted(rules: set<Rule>, ops: seq<Op>, rule: Rule, identifier: string, index: nat): nat
    requires Orderly(rules, ops)
  {
    if ops == [] then 0
    else
      var op, before := ops[|ops| - 1], ops[..|ops| - 1];
      Admitted(rules, before, rule, identifier, index)
      + if Of(op, rule, identifier, index) && Admits(After(rules, before), op) then 1 else 0
  }

  /** The same, over all requests whose clock reading lies in a span of time. */
  ghost function AdmittedWithin(rules: set<Rule>, ops: seq<Op>, rule: Rule, identifier: string, from: nat, to: nat): nat
    requires Orderly(rules, ops)
  {
    if ops == [] then 0
    else
      var op, before := ops[|ops| - 1], ops[..|ops| - 1];
      AdmittedWithin(rules, before, rule, identifier, from, to)
      + if op.Hit? && op.rule == rule && op.identifier == identifier && from <= op.read <= to
           && Admits(After(rules, before), op) then 1 else 0
  }

  // ---- the counter is exact -------------------------------------------------------------------

  lemma WindowsFollow(rule: Rule, index: nat)
    ensures Start(rule, index + 2) == Start(rule, index) + 2 * rule.windowSeconds * MICROS
  {}

  /** A window's counter holds the number of its requests and outlives the last of them. */
  lemma {:induction false} CounterIsExact(rules: set<Rule>, ops: seq<Op>, rule: Rule, identifier: string, index: nat)
    requires Orderly(rules, ops) && rule in rules
    ensures var db, key := After(rules, ops), Key(rule.bucket, identifier, index);
      var hits := Hits(rules, ops, rule, identifier, index);
      if hits == 0 then key !in db
      else key in db && db[key].count == hits
           && (db[key].expireAt.Some? ==> db[key].expireAt.value >= Start(rule, index + 2))
  {
    if ops != [] {
      var op, before := ops[|ops| - 1], ops[..|ops| - 1];
      CounterIsExact(rules, before, rule, identifier, index);
      var key, other := Key(rule.bucket, identifier, index), Key(op.rule.bucket, op.identifier, OpIndex(op));
      if key == other {
        KeyIsInjective(rule.bucket, identifier, index, op.rule.bucket, op.identifier, OpIndex(op));
        WindowsFollow(rule, index);
      }
    }
  }

  /** When the first EXPIRE ran that found a request of this window counted. */
  ghost function FirstArmed(rules: set<Rule>, ops: seq<Op>, rule: Rule, identifier: string, index: nat): Option<nat>
    requires Orderly(rules, ops)
  {
    if ops == [] then None
    else
      var op, before := ops[|ops| - 1], ops[..|ops| - 1];
      var sooner := FirstArmed(rules, before, rule, identifier, index);
      if sooner.Some? then sooner
      else if op.Arm? && Of(op, rule, identifier, index) && Hits(rules, before, rule, identifier, index) > 0 then Some(op.at)
      else None
  }

  lemma {:induction false} NoneArmed(rules: set<Rule>, ops: seq<Op>, rule: Rule, identifier: string, index: nat)
    requires Orderly(rules, ops) && Hits(rules, ops, rule, identifier, index) == 0
    ensures FirstArmed(rules, ops, rule, identifier, index).None?
  {
    if ops != [] {
      NoneArmed(rules, ops[..|ops| - 1], rule, identifier, index);
    }
  }

  lemma KeyOf(rules: set<Rule>, op: Op, rule: Rule, identifier: string, index: nat)
    requires Table(rules) && rule in rules && op.rule in rules
    ensures Key(rule.bucket, identifier, index) == Key(op.rule.bucket, op.identifier, OpIndex(op))
      <==> Of(op, rule, identifier, index)
  {
    if Key(rule.bucket, identifier, index) == Key(op.rule.bucket, op.identifier, OpIndex(op)) {
      KeyIsInjective(rule.bucket, identifier, index, op.rule.bucket, op.identifier, OpIndex(op));
    }
  }

  ghost function Deadline(rules: set<Rule>, ops: seq<Op>, rule: Rule, identifier: string, index: nat): Option<nat>
    requires Orderly(rules, ops) && rule in rules
    requires Hits(rules, ops, rule, identifier, index) > 0
  {
    CounterIsExact(rules, ops, rule, identifier, index);
    After(rules, ops)[Key(rule.bucket, identifier, index)].expireAt
  }

  lemma FirstHit(rules: set<Rule>, ops: seq<Op>, rule: Rule, identifier: string, index: nat)
    requires Orderly(rules, ops) && rule in rules && Hits(rules, ops, rule, identifier, index) > 0
    requires Hits(rules, ops[..|ops| - 1], rule, identifier, index) == 0
    ensures ops[|ops| - 1].Hit? && Deadline(rules, ops, rule, identifier, index).None?
  {
    CounterIsExact(rules, ops[..|ops| - 1], rule, identifier, index);
  }

  lemma LaterStep(rules: set<Rule>, ops: seq<Op>, rule: Rule, identifier: string, index: nat)
    requires Orderly(rules, ops) && rule in rules && ops != []
    requires Hits(rules, ops[..|ops| - 1], rule, identifier, index) > 0
    ensures var op, before := ops[|ops| - 1], Deadline(rules, ops[..|ops| - 1], rule, identifier, index);
      Deadline(rules, ops, rule, identifier, index)
      == if before.None? && op.Arm? && Of(op, rule, identifier, index)
         then Some(op.at + 2 * rule.windowSeconds * 1_000_000) else before
  {
    CounterIsExact(rules, ops[..|ops| - 1], rule, identifier, index);
    KeyOf(rules, ops[|ops| - 1], rule, identifier, index);
  }

  /** A counter's deadline is two windows after the first EXPIRE that reached it; no later
      EXPIRE and no request moves it, and without one there is none. */
  lemma {:induction false} DeadlineIsExact(rules: set<Rule>, ops: seq<Op>, rule: Rule, identifier: string, index: nat)
    requires Orderly(rules, ops) && rule in rules
    requires Hits(rules, ops, rule, identifier, index) > 0
    ensures var armed := FirstArmed(rules, ops, rule, identifier, index);
      Deadline(rules, ops, rule, identifier, index)
      == if armed.Some? then Some(armed.value + 2 * rule.windowSeconds * 1_000_000) else None
  {
    var before := ops[..|ops| - 1];
    if Hits(rules, before, rule, identifier, index) > 0 {
      DeadlineIsExact(rules, before, rule, identifier, index);
      LaterStep(rules, ops, rule, identifier, index);
    } else {
      NoneArmed(rules, before, rule, identifier, index);
      FirstHit(rules, ops, rule, identifier, index);
    }
  }

  /** Of n requests in a window exactly min(limit, n) are admitted, the first ones. */
  lemma {:induction false} ExactlyTheLimit(rules: set<Rule>, ops: seq<Op>, rule: Rule, identifier: string, index: nat)
    requires Orderly(rules, ops) && rule in rules
    ensures var hits := Hits(rules, ops, rule, identifier, index);
      Admitted(rules, ops, rule, identifier, index) == if hits <= rule.limit then hits else rule.limit
  {
    if ops != [] {
      var before := ops[..|ops| - 1];
      ExactlyTheLimit(rules, before, rule, identifier, index);
      CounterIsExact(rules, before, rule, identifier, index);
      WindowsFollow(rule, index);
    }
  }

  /** The bound on a late INCR is tight: at the very end of the window after its own it finds
      the counter lapsed, starts it again at one, and is admitted whatever the limit. */
  lemma LateHitStartsOver(rule: Rule, identifier: string, read: nat, late: nat)
    requires rule.windowSeconds > 0 && rule.limit >= 1 && late >= Start(rule, Index(read, rule.windowSeconds) + 2)
    ensures var index := Index(read, rule.windowSeconds);
      var first := Hit(rule, identifier, read, Start(rule, index));
      var armed := Step(Step(map[], first), Arm(rule, identifier, index, Start(rule, index)));
      var hit := Hit(rule, identifier, read, late);
      && Timely(first) && !Timely(hit)
      && Step(armed, hit)[Key(rule.bucket, identifier, index)].count == 1 && Admits(armed, hit)
  {
    WindowsFollow(rule, Index(read, rule.windowSeconds));
  }

  // ---- any span of one window's length ---------------------------------------------------------

  lemma ReadIsInItsWindow(read: nat, rule: Rule)
    requires rule.windowSeconds > 0
    ensures Start(rule, Index(read, rule.windowSeconds)) <= read < Start(rule, Index(read, rule.windowSeconds) + 1)
  {
    var second, w := read / MICROS, rule.windowSeconds;
    var index := second / w;
    assert second == index * w + second % w;
    assert index * w <= second < index * w + w == (index + 1) * w;
  }

  lemma StartsAreOrdered(rule: Rule, a: nat, b: nat)
    requires Start(rule, a) < Start(rule, b)
    ensures a < b
  {
    Scaled(b, a, rule.windowSeconds);
  }

  lemma Scaled(a: nat, b: nat, w: nat)
    ensures a <= b ==> a * w <= b * w
  {
    if a <= b {
      assert (b - a) * w >= 0;
    }
  }

  lemma SpanMeetsTwoWindows(from: nat, read: nat, rule: Rule)
    requires rule.windowSeconds > 0 && from <= read <= from + rule.windowSeconds * MICROS
    ensures Index(read, rule.windowSeconds) in {Index(from, rule.windowSeconds), Index(from, rule.windowSeconds) + 1}
  {
    var i, j := Index(from, rule.windowSeconds), Index(read, rule.windowSeconds);
    ReadIsInItsWindow(from, rule);
    ReadIsInItsWindow(read, rule);
    WindowsFollow(rule, i);
    StartsAreOrdered(rule, i, j + 1);
    StartsAreOrdered(rule, j, i + 2);
  }

  lemma {:induction false} SpanIsCovered(rules: set<Rule>, ops: seq<Op>, rule: Rule, identifier: string, from: nat)
    requires Orderly(rules, ops) && rule in rules
    ensures AdmittedWithin(rules, ops, rule, identifier, from, from + rule.windowSeconds * MICROS)
      <= Admitted(rules, ops, rule, identifier, Index(from, rule.windowSeconds))
       + Admitted(rules, ops, rule, identifier, Index(from, rule.windowSeconds) + 1)
  {
    if ops != [] {
      SpanIsCovered(rules, ops[..|ops| - 1], rule, identifier, from);
      var op := ops[|ops| - 1];
      if op.Hit? && op.rule == rule && from <= op.read <= from + rule.windowSeconds * MICROS {
        SpanMeetsTwoWindows(from, op.read, rule);
      }
    }
  }

  /** However requests are placed, no span of one window's length lets through more than
      twice the limit. */
  lemma AtMostTwiceTheLimit(rules: set<Rule>, ops: seq<Op>, rule: Rule, identifier: string, from: nat)
    requires Orderly(rules, ops) && rule in rules
    ensures AdmittedWithin(rules, ops, rule, identifier, from, from + rule.windowSeconds * MICROS) <= 2 * rule.limit
  {
    SpanIsCovered(rules, ops, rule, identifier, from);
    ExactlyTheLimit(rules, ops, rule, identifier, Index(from, rule.windowSeconds));
    ExactlyTheLimit(rules, ops, rule, identifier, Index(from, rule.windowSeconds) + 1);
  }

  // ---- the shipped rules -------------------------------------------------------------------------

  const IP_HOURLY_LIMIT := 50
  const HOURLY_WINDOW_SECONDS := 3600
  const OTP_VERIFY_CHALLENGE_HOURLY_LIMIT := 30

  type Word = s: string | ':' !in s
  type Positive = n: nat | n >= 1 witness 1

  /** One declared rule; the bucket it names is its scope, a colon and its name.  A rule
      with a limit or window below one cannot be constructed. */
  datatype Entry = Entry(scope: Word, name: Word, limit: Positive, windowSeconds: Positive) {
    function Bucket(): string {
      scope + ":" + name
    }
  }

  const LOGIN_RULES: seq<Entry> := [
    Entry("auth", "login", 10, 300),
    Entry("auth", "login-ip", IP_HOURLY_LIMIT, HOURLY_WINDOW_SECONDS),
    Entry("auth", "staff-login", 10, 300),
    Entry("auth", "staff-login-ip", IP_HOURLY_LIMIT, HOURLY_WINDOW_SECONDS),
    Entry("auth", "challenge", 5, 3600),
    Entry("auth", "challenge-ip", IP_HOURLY_LIMIT, HOURLY_WINDOW_SECONDS),
    Entry("auth", "challenge-totp", 10, 300),
    Entry("auth", "challenge-totp-ip", IP_HOURLY_LIMIT, HOURLY_WINDOW_SECONDS)
  ]

  const CODE_RULES: seq<Entry> := [
    Entry("auth", "staff-email-code", 5, 3600),
    Entry("auth", "staff-email-code-ip", IP_HOURLY_LIMIT, HOURLY_WINDOW_SECONDS),
    Entry("auth", "mobile-code", 5, 3600),
    Entry("auth", "mobile-code-ip", IP_HOURLY_LIMIT, HOURLY_WINDOW_SECONDS),
    Entry("auth", "staff-mobile-code", 5, 3600),
    Entry("auth", "staff-mobile-code-ip", IP_HOURLY_LIMIT, HOURLY_WINDOW_SECONDS)
  ]

  const OTP_RULES: seq<Entry> := [
    Entry("auth", "register", 5, 3600),
    Entry("auth", "otp-send", 5, 3600),
    Entry("auth", "otp-send-ip", IP_HOURLY_LIMIT, HOURLY_WINDOW_SECONDS),
    Entry("auth", "otp-verify", OTP_VERIFY_CHALLENGE_HOURLY_LIMIT, HOURLY_WINDOW_SECONDS),
    Entry("auth", "otp-verify-ip", IP_HOURLY_LIMIT, HOURLY_WINDOW_SECONDS),
    Entry("auth", "password-reset", 5, 3600)
  ]

  const ACCOUNT_RULES: seq<Entry> := [
    Entry("me", "email-verify", 5, 3600),
    Entry("me", "phone-change", 5, 3600),
    Entry("me", "phone-bind", 5, 3600),
    Entry("me", "avatar-upload", 1, 600)
  ]

  const WORK_RULES: seq<Entry> := [
    Entry("tasks", "claim", 20, 60),
    Entry("claims", "abandon", 10, 60),
    Entry("tasks", "import-preview", 10, 60),
    Entry("submissions", "upload-intent", 10, 60),
    Entry("staff", "invitations", 20, 3600)
  ]

  const COMMUNITY_RULES: seq<Entry> := [
    Entry("comments", "create", 10, 60),
    Entry("comments", "edit", 20, 60),
    Entry("comments", "vote", 30, 60),
    Entry("comments", "reaction", 30, 60),
    Entry("comments", "report", 5, 60),
    Entry("ie", "talent-contacts", 30, 60),
    Entry("ie", "recruitment-contacts", 30, 60)
  ]

  const RATE_LIMIT_RULES :=
    LOGIN_RULES + CODE_RULES + OTP_RULES + ACCOUNT_RULES + WORK_RULES + COMMUNITY_RULES

  /** The dictionary built from the declarations: a repeated bucket keeps its last rule. */
  function ByBucket(entries: seq<Entry>): map<string, Rule> {
    if entries == [] then map[]
    else
      var e := entries[|entries| - 1];
      ByBucket(entries[..|entries| - 1])[e.Bucket() := Rule(e.Bucket(), e.limit, e.windowSeconds)]
  }

  lemma BucketHasOneColon(e: Entry)
    ensures OneColon(e.Bucket())
  {
    var s := e.Bucket();
    assert s[|e.scope|] == ':' && s[..|e.scope|] == e.scope && s[|e.scope| + 1..] == e.name;
  }

  lemma {:induction false} DictionaryIsATable(entries: seq<Entry>)
    ensures forall b :: b in ByBucket(entries) ==> ByBucket(entries)[b].bucket == b
    ensures Table(ByBucket(entries).Values)
  {
    if entries != [] {
      DictionaryIsATable(entries[..|entries| - 1]);
      BucketHasOneColon(entries[|entries| - 1]);
    }
  }

  ghost predicate Declares(entries: seq<Entry>, i: nat, bucket: string) {
    i < |entries| && entries[i].scope + ":" + entries[i].name == bucket
  }

  /** The dictionary knows exactly the declared buckets, each with the limit and the window
      of its last declaration. */
  lemma {:induction false} DictionaryIsExact(entries: seq<Entry>, bucket: string)
    ensures bucket in ByBucket(entries) <==> exists i: nat :: Declares(entries, i, bucket)
    ensures forall i: nat :: Declares(entries, i, bucket) && (forall j: nat :: j > i ==> !Declares(entries, j, bucket)) ==>
      bucket in ByBucket(entries) && ByBucket(entries)[bucket] == Rule(bucket, entries[i].limit, entries[i].windowSeconds)
  {
    if entries != [] {
      var n := |entries| - 1;
      DictionaryIsExact(entries[..n], bucket);
      forall i: nat | i != n ensures Declares(entries, i, bucket) <==> Declares(entries[..n], i, bucket) {}
      assert Declares(entries, n, bucket) <==> entries[n].Bucket() == bucket;
    }
  }

  /** What the bounds above ask of a rule table, the shipped one meets. */
  lemma ShippedRulesAreATable()
    ensures Table(ByBucket(RATE_LIMIT_RULES).Values)
  {
    DictionaryIsATable(RATE_LIMIT_RULES);
  }
}
