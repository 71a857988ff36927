/** Idempotency keys: how they are spelled, when two spellings are equal and how long they get. */
module Keys {

  // ---- Decimal printing ----

  function Digit(d: nat): (c: char)
    requires d < 10
    ensures '0' <= c <= '9' && c as int - '0' as int == d
  {
    '0' + d as char
  }

  /** The decimal digits of a number, as string formatting prints it. */
  function Dec(n: nat): string {
    if n < 10 then [Digit(n)] else Dec(n / 10) + [Digit(n % 10)]
  }

  function ValueOf(s: string): int {
    if s == [] then 0 else 10 * ValueOf(s[..|s| - 1]) + (s[|s| - 1] as int - '0' as int)
  }

  lemma {:induction false} DecRoundTrip(n: nat)
    ensures ValueOf(Dec(n)) == n
  {
    if n < 10 {
      assert Dec(n)[..0] == [];
    } else {
      DecRoundTrip(n / 10);
      assert Dec(n)[..|Dec(n)| - 1] == Dec(n / 10);
    }
  }

  lemma DecInjective(a: nat, b: nat)
    requires Dec(a) == Dec(b)
    ensures a == b
  {
    DecRoundTrip(a);
    DecRoundTrip(b);
  }

  lemma {:induction false} DecIsDigits(n: nat)
    ensures forall i | 0 <= i < |Dec(n)| :: '0' <= Dec(n)[i] <= '9'
    ensures |Dec(n)| > 0
  {
    if n >= 10 {
      DecIsDigits(n / 10);
    }
  }

  function Pow10(k: nat): nat {
    if k == 0 then 1 else 10 * Pow10(k - 1)
  }

  /** A number has at most k digits exactly when it is below 10^k. */
  lemma {:induction false} DecLength(n: nat, k: nat)
    requires k >= 1
    ensures |Dec(n)| <= k <==> n < Pow10(k)
  {
    if n < 10 {
      PowAtLeast(k);
    } else if k == 1 {
      DecIsDigits(n / 10);
      assert Pow10(0) == 1;
    } else {
      DecLength(n / 10, k - 1);
    }
  }

  lemma {:induction false} PowAtLeast(k: nat)
    requires k >= 1
    ensures Pow10(k) >= 10
  {
    if k > 1 {
      PowAtLeast(k - 1);
    }
  }

  // ---- Taking a key apart ----

  lemma NoneBefore(a: string, x: string, sep: char, i: nat)
    requires sep !in a && i < |a + [sep] + x| && (a + [sep] + x)[i] == sep
    ensures |a| <= i
  {
  }

  lemma NoneAfter(a: string, x: string, sep: char, i: nat)
    requires sep !in x && i < |a + [sep] + x| && (a + [sep] + x)[i] == sep
    ensures i <= |a|
  {
  }

  lemma CutAt(a: string, x: string, b: string, y: string, sep: char)
    requires |a| == |b| && a + [sep] + x == b + [sep] + y
    ensures a == b && x == y
  {
    assert a == (a + [sep] + x)[..|a|] && b == (b + [sep] + y)[..|b|];
    assert x == (a + [sep] + x)[|a| + 1..] && y == (b + [sep] + y)[|b| + 1..];
  }

  /** Cutting at the first separator: the part before it is determined. */
  lemma FirstSeparator(a: string, x: string, b: string, y: string, sep: char)
    requires sep !in a && sep !in b
    requires a + [sep] + x == b + [sep] + y
    ensures a == b && x == y
  {
    NoneBefore(a, x, sep, |b|);
    NoneBefore(b, y, sep, |a|);
    CutAt(a, x, b, y, sep);
  }

  /** Cutting at the last separator: the part after it is determined. */
  lemma LastSeparator(a: string, x: string, b: string, y: string, sep: char)
    requires sep !in x && sep !in y
    requires a + [sep] + x == b + [sep] + y
    ensures a == b && x == y
  {
    NoneAfter(a, x, sep, |b|);
    NoneAfter(b, y, sep, |a|);
    CutAt(a, x, b, y, sep);
  }

  lemma SamePrefix(prefix: string, x: string, y: string)
    requires prefix + x == prefix + y
    ensures x == y
  {
    assert x == (prefix + x)[|prefix|..] && y == (prefix + y)[|prefix|..];
  }

  // ---- Time buckets ----

  /** A naive UTC time, to the hour; the years are the four-digit ones. */
  datatype Time = Time(year: nat, month: nat, day: nat, hour: nat) {
    predicate Proper() {
      1000 <= year <= 9999 && 1 <= month <= 12 && 1 <= day <= 31 && hour <= 23
    }

    /** The same calendar day. */
    predicate SameDay(other: Time) {
      (year, month, day) == (other.year, other.month, other.day)
    }
  }

  function TwoDigits(n: nat): (s: string)
    requires n < 100
    ensures |s| == 2
  {
    [Digit(n / 10), Digit(n % 10)]
  }

  function DayBucket(t: Time): (s: string)
    requires t.Proper()
    ensures |s| == 8
  {
    TwoDigits(t.year / 100) + TwoDigits(t.year % 100) + TwoDigits(t.month) + TwoDigits(t.day)
  }

  function HourBucket(t: Time): (s: string)
    requires t.Proper()
    ensures |s| == 10
  {
    DayBucket(t) + TwoDigits(t.hour)
  }

  lemma TwoDigitsInjective(a: nat, b: nat)
    requires a < 100 && b < 100 && TwoDigits(a) == TwoDigits(b)
    ensures a == b
  {
    assert Digit(a / 10) == TwoDigits(a)[0] && Digit(a % 10) == TwoDigits(a)[1];
    assert Digit(b / 10) == TwoDigits(b)[0] && Digit(b % 10) == TwoDigits(b)[1];
  }

  /** Day buckets are equal exactly on the same day, hour buckets exactly within the same hour. */
  lemma BucketsInjective(a: Time, b: Time)
    requires a.Proper() && b.Proper()
    ensures DayBucket(a) == DayBucket(b) <==> a.SameDay(b)
    ensures HourBucket(a) == HourBucket(b) <==> a == b
  {
    if DayBucket(a) == DayBucket(b) {
      var s, t := DayBucket(a), DayBucket(b);
      assert TwoDigits(a.year / 100) == s[0..2] && TwoDigits(b.year / 100) == t[0..2];
      assert TwoDigits(a.year % 100) == s[2..4] && TwoDigits(b.year % 100) == t[2..4];
      assert TwoDigits(a.month) == s[4..6] && TwoDigits(b.month) == t[4..6];
      assert TwoDigits(a.day) == s[6..8] && TwoDigits(b.day) == t[6..8];
      TwoDigitsInjective(a.year / 100, b.year / 100);
      TwoDigitsInjective(a.year % 100, b.year % 100);
      TwoDigitsInjective(a.month, b.month);
      TwoDigitsInjective(a.day, b.day);
    }
    if HourBucket(a) == HourBucket(b) {
      assert DayBucket(a) == HourBucket(a)[..8] && DayBucket(b) == HourBucket(b)[..8];
      assert TwoDigits(a.hour) == HourBucket(a)[8..] && TwoDigits(b.hour) == HourBucket(b)[8..];
      TwoDigitsInjective(a.hour, b.hour);
    }
  }

  /** Year, month, day and hour follow each other with leading zeros. */
  lemma BucketsSpelled()
    ensures DayBucket(Time(2024, 1, 31, 7)) == "20240131" && HourBucket(Time(2024, 1, 31, 7)) == "2024013107"
    ensures Dec(907) == "907" && Dec(0) == "0"
  {
    assert TwoDigits(20) == "20" && TwoDigits(24) == "24" && TwoDigits(1) == "01";
    assert TwoDigits(31) == "31" && TwoDigits(7) == "07";
    assert Dec(90) == "90";
  }

  lemma NoSeparatorInBuckets(t: Time)
    requires t.Proper()
    ensures ':' !in DayBucket(t) && ':' !in HourBucket(t)
  {
  }

  // ---- The planner's keys ----

  function LifecycleKey(tenant: string, policyId: nat, taskType: string, bucket: string): string {
    tenant + ":lifecycle:" + Dec(policyId) + ":" + taskType + ":" + bucket
  }

  /** Lifecycle keys are equal only when every part is, even for tenant ids that contain colons. */
  lemma LifecycleKeyInjective(tenant: string, id: nat, taskType: string, bucket: string,
                              tenant': string, id': nat, taskType': string, bucket': string)
    requires ':' !in taskType && ':' !in taskType' && ':' !in bucket && ':' !in bucket'
    requires LifecycleKey(tenant, id, taskType, bucket) == LifecycleKey(tenant', id', taskType', bucket')
    ensures (tenant, id, taskType, bucket) == (tenant', id', taskType', bucket')
  {
    var head, head' := tenant + ":lifecycle", tenant' + ":lifecycle";
    var mid, mid' := head + [':'] + Dec(id), head' + [':'] + Dec(id');
    var left, left' := mid + [':'] + taskType, mid' + [':'] + taskType';
    assert LifecycleKey(tenant, id, taskType, bucket) == left + [':'] + bucket;
    assert LifecycleKey(tenant', id', taskType', bucket') == left' + [':'] + bucket';
    LastSeparator(left, bucket, left', bucket', ':');
    LastSeparator(mid, taskType, mid', taskType', ':');
    DecIsDigits(id);
    DecIsDigits(id');
    LastSeparator(head, Dec(id), head', Dec(id'), ':');
    DecInjective(id, id');
    assert tenant == head[..|head| - 10] && tenant' == head'[..|head'| - 10];
  }

  /** The DDL limit of 128 characters holds with room to spare for the column widths of the source. */
  lemma LifecycleKeyLength(tenant: string, policyId: nat, taskType: string, bucket: string)
    requires |tenant| <= 64 && policyId < 0x1_0000_0000_0000_0000
    requires taskType in {"TTL_DELETE", "COMPACTION", "INDEX_OPTIMIZE", "VECTORIZE"} && |bucket| <= 10
    ensures |LifecycleKey(tenant, policyId, taskType, bucket)| <= 121
  {
    assert Pow10(20) == 100000000000000000000 by {
      assert Pow10(5) == 100000;
      assert Pow10(10) == 10000000000;
      assert Pow10(15) == 1000000000000000;
    }
    DecLength(policyId, 20);
  }

  function AutoOptimizeKey(tenant: string, dataset: string, indexName: string, hour: string): string {
    tenant + ":auto-optimize:" + dataset + "/" + indexName + ":" + hour
  }

  /** The delta-threshold key fits the 128-character column exactly when its names leave room. */
  lemma AutoOptimizeKeyLength(tenant: string, dataset: string, indexName: string, hour: string)
    requires |hour| == 10
    ensures |AutoOptimizeKey(tenant, dataset, indexName, hour)| <= 128
            <==> |tenant| + |dataset| + |indexName| <= 101
  {
  }

  // ---- The watcher's keys ----

  /** It does not for a tenant of 64 characters, a dataset named by a uuid and an index named by two letters. */
  lemma OverlongDeltaKey(tenant: string, dataset: string, indexName: string, hour: string)
    requires |tenant| == 64 && |dataset| == 36 && |indexName| == 2 && |hour| == 10
    ensures |AutoOptimizeKey(tenant, dataset, indexName, hour)| > 128
  {
    AutoOptimizeKeyLength(tenant, dataset, indexName, hour);
  }

  function WatcherTail(version: nat, reason: string): string {
    Dec(version) + [':'] + reason
  }

  function WatcherKey(indexId: nat, version: nat, reason: string): string {
    "watcher:" + (Dec(indexId) + [':'] + ("INDEX_OPTIMIZE:v" + WatcherTail(version, reason)))
  }

  /** Watcher keys are equal only for the same index, version and reason. */
  lemma WatcherKeyInjective(id: nat, version: nat, reason: string, id': nat, version': nat, reason': string)
    requires WatcherKey(id, version, reason) == WatcherKey(id', version', reason')
    ensures (id, version, reason) == (id', version', reason')
  {
    var tail, tail' := WatcherTail(version, reason), WatcherTail(version', reason');
    var mid, mid' := "INDEX_OPTIMIZE:v" + tail, "INDEX_OPTIMIZE:v" + tail';
    SamePrefix("watcher:", Dec(id) + [':'] + mid, Dec(id') + [':'] + mid');
    DigitsThen(id, mid, id', mid');
    SamePrefix("INDEX_OPTIMIZE:v", tail, tail');
    DigitsThen(version, reason, version', reason');
  }

  lemma DigitsThen(n: nat, x: string, m: nat, y: string)
    requires Dec(n) + [':'] + x == Dec(m) + [':'] + y
    ensures n == m && x == y
  {
    DecIsDigits(n);
    DecIsDigits(m);
    FirstSeparator(Dec(n), x, Dec(m), y, ':');
    DecInjective(n, m);
  }
}
