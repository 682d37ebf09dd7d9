/**
 The in-memory telemetry store (internal/observability/telemetry.go).
 The theorems compare any schedule of cleanups with one late cleanup: cleaning up
 early never keeps a record that a single cleanup would drop, and loses
 nothing exactly when the last arrivals hold every record the single one would keep.
 */
module Telemetry {
  import Text

  /** Instants are nanoseconds after Go's zero time, which is 0 here; `verb` is the
      source's Method. */
  datatype RequestTelemetry = RequestTelemetry(
    requestID: string,
    sessionID: string,
    provider: string,
    verb: string,
    route: string,
    queryPresent: bool,
    status: int,
    latency: int,
    errorKind: string,
    inputTokens: int,
    outputTokens: int,
    startedAt: int,
    promptPreview: string,
    credentialHint: string)

  datatype RetentionPolicy = RetentionPolicy(maxRecords: int, maxAge: int)

  datatype CleanupResult = CleanupResult(dryRun: bool, wouldRemove: int, removed: int, kept: int)

  const DefaultRetentionPolicy := RetentionPolicy(1000, 24 * 3_600_000_000_000)

  function Normalize(p: RetentionPolicy): (q: RetentionPolicy)
    ensures q.maxRecords == if p.maxRecords > 0 then p.maxRecords else 1000
    ensures q.maxAge == if p.maxAge > 0 then p.maxAge else 86_400_000_000_000
  {
    RetentionPolicy(
      if p.maxRecords <= 0 then DefaultRetentionPolicy.maxRecords else p.maxRecords,
      if p.maxAge <= 0 then DefaultRetentionPolicy.maxAge else p.maxAge)
  }

  /** Record drops the fields that could carry prompt text or credentials. */
  function Redact(r: RequestTelemetry): RequestTelemetry {
    r.(promptPreview := "", credentialHint := "")
  }

  predicate Private(records: seq<RequestTelemetry>) {
    forall i :: 0 <= i < |records| ==> records[i].promptPreview == "" && records[i].credentialHint == ""
  }

  predicate Stale(r: RequestTelemetry, maxAge: int, now: int) {
    r.startedAt != 0 && r.startedAt < now - maxAge
  }

  function Fresh(records: seq<RequestTelemetry>, maxAge: int, now: int): seq<RequestTelemetry> {
    if records == [] then []
    else (if Stale(records[0], maxAge, now) then [] else [records[0]]) + Fresh(records[1..], maxAge, now)
  }

  function LastN<T>(s: seq<T>, n: nat): (r: seq<T>)
    ensures |r| <= n
  {
    if |s| > n then s[|s| - n..] else s
  }

  /** What a cleanup keeps: the fresh records, and of those the most recent ones. */
  function Retain(records: seq<RequestTelemetry>, policy: RetentionPolicy, now: int): seq<RequestTelemetry> {
    var p := Normalize(policy);
    LastN(Fresh(records, p.maxAge, now), p.maxRecords)
  }

  method ApplyRetentionPolicy(records: seq<RequestTelemetry>, policy: RetentionPolicy, now: int)
    returns (kept: seq<RequestTelemetry>)
    ensures kept == Retain(records, policy, now)
  {
    var p := Normalize(policy);
    var cutoff := now - p.maxAge;
    kept := [];
    for i := 0 to |records|
      invariant kept == Fresh(records[..i], p.maxAge, now)
    {
      var record := records[i];
      assert records[..i + 1] == records[..i] + [record];
      FreshConcat(records[..i], [record], p.maxAge, now);
      if p.maxAge > 0 && record.startedAt != 0 && record.startedAt < cutoff {
        continue;
      }
      kept := kept + [record];
    }
    assert records[..|records|] == records;
    if p.maxRecords > 0 && |kept| > p.maxRecords {
      kept := kept[|kept| - p.maxRecords..];
    }
  }

  class MemoryTelemetryStore {
    var records: seq<RequestTelemetry>
    var policy: RetentionPolicy

    /** Nothing in the store can leak prompt text or credentials. */
    predicate Valid()
      reads this
    {
      Private(records)
    }

    constructor ()
      ensures Valid() && records == [] && policy == RetentionPolicy(1000, 86_400_000_000_000)
    {
      records := [];
      policy := DefaultRetentionPolicy;
    }

    constructor WithRetentionPolicy(p: RetentionPolicy)
      ensures Valid() && records == [] && policy == Normalize(p)
    {
      records := [];
      policy := Normalize(p);
    }

    method Record(record: RequestTelemetry)
      requires Valid()
      modifies this`records
      ensures Valid() && records == old(records) + [record.(promptPreview := "", credentialHint := "")]
    {
      var redacted := record.(promptPreview := "");
      redacted := redacted.(credentialHint := "");
      records := records + [redacted];
    }

    method Snapshot() returns (copy: seq<RequestTelemetry>)
      ensures copy == records
    {
      copy := records;
    }

    method Cleanup(now: int, confirm: bool) returns (result: CleanupResult)
      requires Valid()
      modifies this`records
      ensures Valid()
      ensures records == if confirm then Retain(old(records), policy, now) else old(records)
      ensures confirm ==> records == Survivors(old(records), policy, now)
      ensures result.dryRun == !confirm
      ensures result.kept == |Retain(old(records), policy, now)|
      ensures result.wouldRemove == |old(records)| - result.kept >= 0
      ensures result.removed == if confirm then result.wouldRemove else 0
    {
      var kept := ApplyRetentionPolicy(records, policy, now);
      RetainPrivate(records, policy, now);
      RetainSurvives(records, policy, now);
      var removed := |records| - |kept|;
      result := CleanupResult(!confirm, removed, 0, |kept|);
      if confirm {
        result := result.(removed := removed);
        records := kept;
      }
    }
  }

  // ----- Filtering -----

  lemma {:induction false} FreshConcat(a: seq<RequestTelemetry>, b: seq<RequestTelemetry>, maxAge: int, now: int)
    ensures Fresh(a + b, maxAge, now) == Fresh(a, maxAge, now) + Fresh(b, maxAge, now)
    decreases |a|
  {
    if a == [] {
      assert a + b == b;
    } else {
      assert (a + b)[1..] == a[1..] + b;
      FreshConcat(a[1..], b, maxAge, now);
    }
  }

  lemma {:induction false} FreshPrivate(records: seq<RequestTelemetry>, maxAge: int, now: int)
    ensures |Fresh(records, maxAge, now)| <= |records|
    ensures Private(records) ==> Private(Fresh(records, maxAge, now))
  {
    if records != [] { FreshPrivate(records[1..], maxAge, now); }
  }

  lemma RetainPrivate(records: seq<RequestTelemetry>, policy: RetentionPolicy, now: int)
    ensures |Retain(records, policy, now)| <= |records|
    ensures Private(records) ==> Private(Retain(records, policy, now))
  {
    FreshPrivate(records, Normalize(policy).maxAge, now);
  }

  /** An earlier cut-off drops nothing that a later one would keep. */
  lemma {:induction false} FreshLater(records: seq<RequestTelemetry>, maxAge: int, early: int, late: int)
    requires early <= late
    ensures Fresh(Fresh(records, maxAge, early), maxAge, late) == Fresh(records, maxAge, late)
  {
    if records != [] {
      FreshLater(records[1..], maxAge, early, late);
      FreshConcat(if Stale(records[0], maxAge, early) then [] else [records[0]],
                  Fresh(records[1..], maxAge, early), maxAge, late);
    }
  }

  predicate IsSuffix<T(==)>(a: seq<T>, b: seq<T>) {
    |a| <= |b| && b[|b| - |a|..] == a
  }

  lemma SuffixSplit<T>(a: seq<T>, b: seq<T>) returns (front: seq<T>)
    requires IsSuffix(a, b)
    ensures b == front + a
  {
    front := b[..|b| - |a|];
  }

  lemma SuffixOf<T>(front: seq<T>, a: seq<T>)
    ensures IsSuffix(a, front + a)
  {
  }

  lemma SuffixTransitive<T>(a: seq<T>, b: seq<T>, c: seq<T>)
    requires IsSuffix(a, b) && IsSuffix(b, c)
    ensures IsSuffix(a, c)
  {
    var x := SuffixSplit(a, b);
    var y := SuffixSplit(b, c);
    assert c == (y + x) + a;
    SuffixOf(y + x, a);
  }

  lemma LastNSuffix<T>(a: seq<T>, b: seq<T>, n: nat)
    requires IsSuffix(a, b)
    ensures IsSuffix(LastN(a, n), LastN(b, n)) && IsSuffix(LastN(a, n), a)
  {
    var front := SuffixSplit(a, b);
    LastNIsSuffix(a, n);
    LastNIsSuffix(b, n);
    SuffixTransitive(LastN(a, n), a, b);
    SuffixesNest(LastN(a, n), LastN(b, n), b);
  }

  lemma LastNIsSuffix<T>(s: seq<T>, n: nat)
    ensures IsSuffix(LastN(s, n), s) && |LastN(s, n)| == if |s| > n then n else |s|
  {
  }

  /** Of two suffixes of one list, the shorter is a suffix of the longer. */
  lemma SuffixesNest<T>(a: seq<T>, b: seq<T>, c: seq<T>)
    requires IsSuffix(a, c) && IsSuffix(b, c) && |a| <= |b|
    ensures IsSuffix(a, b)
  {
    var x := SuffixSplit(b, c);
    var y := SuffixSplit(a, c);
    assert b == c[|x|..] && a == c[|y|..];
    assert b[|b| - |a|..] == c[|y|..];
  }

  lemma FreshSuffix(a: seq<RequestTelemetry>, b: seq<RequestTelemetry>, maxAge: int, now: int)
    requires IsSuffix(a, b)
    ensures IsSuffix(Fresh(a, maxAge, now), Fresh(b, maxAge, now))
  {
    var front := SuffixSplit(a, b);
    FreshConcat(front, a, maxAge, now);
    SuffixOf(Fresh(front, maxAge, now), Fresh(a, maxAge, now));
  }

  // ----- What is retained, record by record -----

  /** The record has no start time, or is no older than the policy allows. */
  predicate Recent(r: RequestTelemetry, policy: RetentionPolicy, now: int) {
    r.startedAt == 0 || r.startedAt >= now - (if policy.maxAge > 0 then policy.maxAge else 86_400_000_000_000)
  }

  function RecentSet(records: seq<RequestTelemetry>, policy: RetentionPolicy, now: int): set<int> {
    set i | 0 <= i < |records| && Recent(records[i], policy, now)
  }

  /** The recent records that fewer recent ones follow than the policy allows records. */
  function Survivors(records: seq<RequestTelemetry>, policy: RetentionPolicy, now: int): seq<RequestTelemetry> {
    if records == [] then []
    else
      var room := if policy.maxRecords > 0 then policy.maxRecords else 1000;
      (if Recent(records[0], policy, now) && |RecentSet(records[1..], policy, now)| < room then [records[0]] else [])
      + Survivors(records[1..], policy, now)
  }

  lemma {:induction false} FreshCount(records: seq<RequestTelemetry>, policy: RetentionPolicy, now: int)
    ensures |Fresh(records, Normalize(policy).maxAge, now)| == |RecentSet(records, policy, now)|
    decreases |records|
  {
    if records != [] {
      var n, maxAge := |records| - 1, Normalize(policy).maxAge;
      var front, r := records[..n], records[n];
      assert records == front + [r];
      FreshCount(front, policy, now);
      FreshSnoc(front, r, maxAge, now);
      assert RecentSet(records, policy, now) ==
             RecentSet(front, policy, now) + if Recent(r, policy, now) then {n} else {};
    }
  }

  /** A cleanup keeps a record if and only if it is recent and fewer recent ones follow it
      than there is room for. */
  lemma {:induction false} RetainSurvives(records: seq<RequestTelemetry>, policy: RetentionPolicy, now: int)
    ensures Retain(records, policy, now) == Survivors(records, policy, now)
  {
    if records != [] {
      var p := Normalize(policy);
      var rest := Fresh(records[1..], p.maxAge, now);
      RetainSurvives(records[1..], policy, now);
      FreshCount(records[1..], policy, now);
      assert [] + rest == rest;
      LastNCons(records[0], rest, p.maxRecords);
    }
  }

  lemma LastNCons<T>(x: T, s: seq<T>, n: nat)
    ensures LastN([x] + s, n) == if |s| < n then [x] + LastN(s, n) else LastN(s, n)
  {
  }

  // ----- Runs -----

  datatype Event = Record(record: RequestTelemetry) | Cleanup(now: int)

  function Run(records: seq<RequestTelemetry>, policy: RetentionPolicy, events: seq<Event>): seq<RequestTelemetry> {
    if events == [] then records
    else
      var before := Run(records, policy, events[..|events| - 1]);
      match events[|events| - 1]
      case Record(r) => before + [Redact(r)]
      case Cleanup(now) => Retain(before, policy, now)
  }

  /** Everything that was ever recorded. */
  function Everything(records: seq<RequestTelemetry>, events: seq<Event>): seq<RequestTelemetry> {
    if events == [] then records
    else
      var before := Everything(records, events[..|events| - 1]);
      match events[|events| - 1]
      case Record(r) => before + [Redact(r)]
      case Cleanup(_) => before
  }

  predicate NotAfter(events: seq<Event>, now: int) {
    forall i :: 0 <= i < |events| && events[i].Cleanup? ==> events[i].now <= now
  }

  lemma {:induction false} RunStaysPrivate(records: seq<RequestTelemetry>, policy: RetentionPolicy, events: seq<Event>)
    requires Private(records)
    ensures Private(Run(records, policy, events))
    decreases |events|
  {
    if events != [] {
      var before := events[..|events| - 1];
      RunStaysPrivate(records, policy, before);
      match events[|events| - 1]
      case Record(_) =>
      case Cleanup(now) => RetainPrivate(Run(records, policy, before), policy, now);
    }
  }

  lemma {:induction false} RunFresh(records: seq<RequestTelemetry>, policy: RetentionPolicy,
                                    events: seq<Event>, now: int)
    requires NotAfter(events, now)
    ensures var maxAge := Normalize(policy).maxAge;
            IsSuffix(Fresh(Run(records, policy, events), maxAge, now), Fresh(Everything(records, events), maxAge, now))
    decreases |events|
  {
    if events != [] {
      var before := events[..|events| - 1];
      var p := Normalize(policy);
      var run, all := Run(records, policy, before), Everything(records, before);
      RunFresh(records, policy, before, now);
      match events[|events| - 1]
      case Record(r) =>
        FreshConcat(run, [Redact(r)], p.maxAge, now);
        FreshConcat(all, [Redact(r)], p.maxAge, now);
        SuffixAppend(Fresh(run, p.maxAge, now), Fresh(all, p.maxAge, now), Fresh([Redact(r)], p.maxAge, now));
      case Cleanup(t) =>
        var young := Fresh(run, p.maxAge, t);
        LastNSuffix(young, young, p.maxRecords);
        FreshSuffix(LastN(young, p.maxRecords), young, p.maxAge, now);
        FreshLater(run, p.maxAge, t, now);
        var left := Fresh(LastN(young, p.maxRecords), p.maxAge, now);
        SuffixTransitive(left, Fresh(run, p.maxAge, now), Fresh(all, p.maxAge, now));
    }
  }

  lemma SuffixAppend<T>(a: seq<T>, b: seq<T>, c: seq<T>)
    requires IsSuffix(a, b)
    ensures IsSuffix(a + c, b + c)
  {
    var x := SuffixSplit(a, b);
    assert b + c == x + (a + c);
    SuffixOf(x, a + c);
  }

  /** Whatever cleanups ran before, the last one leaves a suffix of what it alone
      would have left of everything recorded. */
  lemma ScheduleKeepsSuffix(records: seq<RequestTelemetry>, policy: RetentionPolicy, events: seq<Event>, now: int)
    requires NotAfter(events, now)
    ensures IsSuffix(Retain(Run(records, policy, events), policy, now),
                     Retain(Everything(records, events), policy, now))
  {
    var p := Normalize(policy);
    RunFresh(records, policy, events, now);
    var run, all := Run(records, policy, events), Everything(records, events);
    LastNSuffix(Fresh(run, p.maxAge, now), Fresh(all, p.maxAge, now), p.maxRecords);
  }

  // ----- When the schedule makes no difference -----

  /** The last maxRecords arrivals hold every record that one late cleanup keeps. */
  predicate Covered(all: seq<RequestTelemetry>, policy: RetentionPolicy, now: int) {
    var p := Normalize(policy);
    Fresh(LastN(all, p.maxRecords), p.maxAge, now) == Retain(all, policy, now)
  }

  /** How many of the last k records are still fresh. */
  function FreshAmong(records: seq<RequestTelemetry>, k: nat, maxAge: int, now: int): nat {
    |Fresh(LastN(records, k), maxAge, now)|
  }

  /** At every depth up to n, the store holds at least as many fresh records as the list
      of everything recorded. */
  predicate Ahead(run: seq<RequestTelemetry>, all: seq<RequestTelemetry>, n: nat, maxAge: int, now: int) {
    forall k :: 0 <= k <= n ==> FreshAmong(all, k, maxAge, now) <= FreshAmong(run, k, maxAge, now)
  }

  lemma LastNSnoc<T>(s: seq<T>, x: T, k: nat)
    ensures LastN(s + [x], k) == if k == 0 then [] else LastN(s, k - 1) + [x]
  {
  }

  lemma RecordAhead(run: seq<RequestTelemetry>, all: seq<RequestTelemetry>, n: nat, maxAge: int, now: int,
                    r: RequestTelemetry)
    requires Ahead(run, all, n, maxAge, now)
    ensures Ahead(run + [r], all + [r], n, maxAge, now)
  {
    forall k | 0 <= k <= n
      ensures FreshAmong(all + [r], k, maxAge, now) <= FreshAmong(run + [r], k, maxAge, now)
    {
      LastNSnoc(run, r, k);
      LastNSnoc(all, r, k);
      if k > 0 {
        FreshConcat(LastN(run, k - 1), [r], maxAge, now);
        FreshConcat(LastN(all, k - 1), [r], maxAge, now);
        assert FreshAmong(all, k - 1, maxAge, now) <= FreshAmong(run, k - 1, maxAge, now);
      }
    }
  }

  /** Dropping records that are stale already brings the fresh ones closer to the end. */
  lemma FreshMovesUp(run: seq<RequestTelemetry>, k: nat, maxAge: int, t: int, now: int)
    requires t <= now
    ensures FreshAmong(run, k, maxAge, now) <= FreshAmong(Fresh(run, maxAge, t), k, maxAge, now)
  {
    var last, young := LastN(run, k), Fresh(run, maxAge, t);
    LastNIsSuffix(run, k);
    FreshSuffix(last, run, maxAge, t);
    FreshPrivate(last, maxAge, t);
    LastNIsSuffix(young, k);
    SuffixesNest(Fresh(last, maxAge, t), LastN(young, k), young);
    FreshSuffix(Fresh(last, maxAge, t), LastN(young, k), maxAge, now);
    FreshLater(last, maxAge, t, now);
  }

  lemma CleanupAhead(run: seq<RequestTelemetry>, all: seq<RequestTelemetry>, policy: RetentionPolicy, now: int, t: int)
    requires var p := Normalize(policy); Ahead(run, all, p.maxRecords, p.maxAge, now) && t <= now
    ensures var p := Normalize(policy); Ahead(Retain(run, policy, t), all, p.maxRecords, p.maxAge, now)
  {
    var p := Normalize(policy);
    var young := Fresh(run, p.maxAge, t);
    forall k | 0 <= k <= p.maxRecords
      ensures FreshAmong(all, k, p.maxAge, now) <= FreshAmong(Retain(run, policy, t), k, p.maxAge, now)
    {
      FreshMovesUp(run, k, p.maxAge, t, now);
      assert LastN(LastN(young, p.maxRecords), k) == LastN(young, k);
    }
  }

  lemma {:induction false} RunAhead(records: seq<RequestTelemetry>, policy: RetentionPolicy,
                                    events: seq<Event>, now: int)
    requires NotAfter(events, now)
    ensures var p := Normalize(policy);
            Ahead(Run(records, policy, events), Everything(records, events), p.maxRecords, p.maxAge, now)
    decreases |events|
  {
    if events != [] {
      var before, p := events[..|events| - 1], Normalize(policy);
      var run, all := Run(records, policy, before), Everything(records, before);
      RunAhead(records, policy, before, now);
      match events[|events| - 1]
      case Record(r) => RecordAhead(run, all, p.maxRecords, p.maxAge, now, Redact(r));
      case Cleanup(t) => CleanupAhead(run, all, policy, now, t);
    }
  }

  lemma SameLast<T>(a: seq<T>, b: seq<T>, n: nat)
    requires IsSuffix(a, b) && |LastN(b, n)| <= |a|
    ensures LastN(a, n) == LastN(b, n)
  {
    var front := SuffixSplit(a, b);
  }

  /** On covered records no schedule loses anything. */
  lemma CoveredLosesNothing(records: seq<RequestTelemetry>, policy: RetentionPolicy, events: seq<Event>, now: int)
    requires NotAfter(events, now) && Covered(Everything(records, events), policy, now)
    ensures Retain(Run(records, policy, events), policy, now) == Retain(Everything(records, events), policy, now)
  {
    var p := Normalize(policy);
    var run, all := Run(records, policy, events), Everything(records, events);
    RunFresh(records, policy, events, now);
    RunAhead(records, policy, events, now);
    LastNIsSuffix(run, p.maxRecords);
    FreshSuffix(LastN(run, p.maxRecords), run, p.maxAge, now);
    assert FreshAmong(all, p.maxRecords, p.maxAge, now) <= FreshAmong(run, p.maxRecords, p.maxAge, now);
    SameLast(Fresh(run, p.maxAge, now), Fresh(all, p.maxAge, now), p.maxRecords);
  }

  lemma {:induction false} FreshAll(records: seq<RequestTelemetry>, maxAge: int, now: int)
    requires forall i :: 0 <= i < |records| ==> !Stale(records[i], maxAge, now)
    ensures Fresh(records, maxAge, now) == records
  {
    if records != [] { FreshAll(records[1..], maxAge, now); }
  }

  /** The events that record these and do nothing else. */
  function Recording(all: seq<RequestTelemetry>): (events: seq<Event>)
    ensures |events| == |all| && forall i :: 0 <= i < |all| ==> events[i] == Record(all[i])
  {
    seq(|all|, i requires 0 <= i < |all| => Record(all[i]))
  }

  lemma {:induction false} RecordingRecords(all: seq<RequestTelemetry>, policy: RetentionPolicy)
    requires Private(all)
    ensures Run([], policy, Recording(all)) == all == Everything([], Recording(all))
    decreases |all|
  {
    if all != [] {
      var n := |all| - 1;
      RecordingRecords(all[..n], policy);
      assert Recording(all)[..n] == Recording(all[..n]);
      assert all == all[..n] + [all[n]] && Redact(all[n]) == all[n];
    }
  }

  /** A time no later than now and than every start. */
  function Earliest(all: seq<RequestTelemetry>, now: int): (t: int)
    ensures t <= now && forall i :: 0 <= i < |all| ==> t <= all[i].startedAt
  {
    if all == [] then now
    else
      var t := Earliest(all[1..], now);
      assert forall i :: 1 <= i < |all| ==> all[i] == all[1..][i - 1];
      if t <= all[0].startedAt then t else all[0].startedAt
  }

  /** A cleanup early enough keeps the last maxRecords arrivals, whatever their age. */
  lemma EarlyCleanup(all: seq<RequestTelemetry>, policy: RetentionPolicy, now: int) returns (events: seq<Event>)
    requires Private(all)
    ensures NotAfter(events, now) && Everything([], events) == all
    ensures Run([], policy, events) == LastN(all, Normalize(policy).maxRecords)
  {
    var t := Earliest(all, now);
    events := Recording(all) + [Cleanup(t)];
    assert events[..|all|] == Recording(all);
    RecordingRecords(all, policy);
    FreshAll(all, Normalize(policy).maxAge, t);
  }

  /** Whatever is recorded and whenever cleanups run, the last one leaves what it alone
      would have left. */
  ghost predicate ScheduleFree(all: seq<RequestTelemetry>, policy: RetentionPolicy, now: int) {
    forall events :: NotAfter(events, now) && Everything([], events) == all ==>
      Retain(Run([], policy, events), policy, now) == Retain(all, policy, now)
  }

  /** Exactly on covered records the schedule of cleanups makes no difference. */
  lemma ScheduleIsIrrelevantIff(all: seq<RequestTelemetry>, policy: RetentionPolicy, now: int)
    requires Private(all)
    ensures ScheduleFree(all, policy, now) <==> Covered(all, policy, now)
  {
    var p := Normalize(policy);
    if ScheduleFree(all, policy, now) {
      var events := EarlyCleanup(all, policy, now);
      FreshPrivate(LastN(all, p.maxRecords), p.maxAge, now);
    }
    if Covered(all, policy, now) {
      forall events | NotAfter(events, now) && Everything([], events) == all
        ensures Retain(Run([], policy, events), policy, now) == Retain(all, policy, now)
      {
        CoveredLosesNothing([], policy, events, now);
      }
    }
  }

  // ----- Records in order -----

  /** Every start time is set, and records arrive in the order they started. */
  predicate Chronological(records: seq<RequestTelemetry>) {
    && (forall i :: 0 <= i < |records| ==> records[i].startedAt != 0)
    && (forall i, j :: 0 <= i < j < |records| ==> records[i].startedAt <= records[j].startedAt)
  }

  lemma {:induction false} FreshNone(records: seq<RequestTelemetry>, maxAge: int, now: int)
    requires forall i :: 0 <= i < |records| ==> Stale(records[i], maxAge, now)
    ensures Fresh(records, maxAge, now) == []
  {
    if records != [] { FreshNone(records[1..], maxAge, now); }
  }

  /** In order, either everything in front is stale or everything behind is fresh. */
  lemma FreshSplit(front: seq<RequestTelemetry>, last: seq<RequestTelemetry>, maxAge: int, now: int)
    requires Chronological(front + last)
    ensures Fresh(front, maxAge, now) == [] || Fresh(last, maxAge, now) == last
  {
    var all := front + last;
    assert forall i :: 0 <= i < |last| ==> all[|front| + i] == last[i];
    if forall i :: 0 <= i < |last| ==> !Stale(last[i], maxAge, now) {
      FreshAll(last, maxAge, now);
    } else {
      var j :| 0 <= j < |last| && Stale(last[j], maxAge, now);
      forall i | 0 <= i < |front| ensures Stale(front[i], maxAge, now) {
        assert all[i] == front[i] && all[i].startedAt <= all[|front| + j].startedAt;
      }
      FreshNone(front, maxAge, now);
    }
  }

  /** Records in order are covered, and so are records that all fit. */
  lemma InOrderIsCovered(all: seq<RequestTelemetry>, policy: RetentionPolicy, now: int)
    requires Chronological(all) || |all| <= Normalize(policy).maxRecords
    ensures Covered(all, policy, now)
  {
    var p := Normalize(policy);
    FreshPrivate(all, p.maxAge, now);
    if |all| > p.maxRecords {
      var m := |all| - p.maxRecords;
      var front, last := all[..m], all[m..];
      assert all == front + last;
      FreshSplit(front, last, p.maxAge, now);
      FreshConcat(front, last, p.maxAge, now);
      FreshPrivate(last, p.maxAge, now);
      LastNBehind(Fresh(front, p.maxAge, now), Fresh(last, p.maxAge, now), p.maxRecords);
    }
  }

  lemma LastNBehind<T>(front: seq<T>, last: seq<T>, n: nat)
    requires |last| <= n && (front == [] || |last| == n)
    ensures LastN(front + last, n) == last
  {
  }

  /** With start times set and in order, the schedule of cleanups makes no difference:
      the last one leaves exactly what it alone would have left. */
  lemma ScheduleIsIrrelevant(records: seq<RequestTelemetry>, policy: RetentionPolicy, events: seq<Event>, now: int)
    requires NotAfter(events, now)
    requires Chronological(Everything(records, events)) || |Everything(records, events)| <= Normalize(policy).maxRecords
    ensures Retain(Run(records, policy, events), policy, now) == Retain(Everything(records, events), policy, now)
  {
    InOrderIsCovered(Everything(records, events), policy, now);
    CoveredLosesNothing(records, policy, events, now);
  }

  // ----- Cleanups that follow the clock -----

  /** The latest start among these, and no time before Go's zero time. */
  function Latest(records: seq<RequestTelemetry>): (t: int)
    ensures t >= 0 && forall i :: 0 <= i < |records| ==> records[i].startedAt <= t
  {
    if records == [] then 0
    else
      var n := |records| - 1;
      var t := Latest(records[..n]);
      assert forall i :: 0 <= i < n ==> records[i] == records[..n][i];
      if records[n].startedAt > t then records[n].startedAt else t
  }

  /** No cleanup runs before a start that is already recorded, nor after the last one. */
  predicate InTime(events: seq<Event>, now: int) {
    forall i :: 0 <= i < |events| && events[i].Cleanup? ==>
      Latest(Everything([], events[..i])) <= events[i].now <= now
  }

  /** Along any schedule in time, the last cleanup leaves what it alone would have left. */
  ghost predicate ClockFree(all: seq<RequestTelemetry>, policy: RetentionPolicy, now: int) {
    forall events :: InTime(events, now) && Everything([], events) == all ==>
      Retain(Run([], policy, events), policy, now) == Retain(all, policy, now)
  }

  /** A cleanup after the first j records, as early as the clock allows, leaves enough:
      with the fresh ones among the others, as many as the last cleanup keeps. */
  predicate SafeAt(all: seq<RequestTelemetry>, policy: RetentionPolicy, now: int, j: nat)
    requires j <= |all|
  {
    var maxAge := Normalize(policy).maxAge;
    var kept := Retain(all[..j], policy, Latest(all[..j]));
    |Fresh(kept, maxAge, now)| + |Fresh(all[j..], maxAge, now)| >= |Retain(all, policy, now)|
  }

  predicate Safe(all: seq<RequestTelemetry>, policy: RetentionPolicy, now: int) {
    forall j :: 0 <= j <= |all| && Latest(all[..j]) <= now ==> SafeAt(all, policy, now, j)
  }

  /** How many records are fresh at time t in the shortest end of the list that has m
      records fresh now. */
  function Span(records: seq<RequestTelemetry>, m: nat, maxAge: int, t: int, now: int): nat {
    if m == 0 || records == [] then 0
    else
      var n := |records| - 1;
      (if Stale(records[n], maxAge, t) then 0 else 1)
      + Span(records[..n], if Stale(records[n], maxAge, now) then m else m - 1, maxAge, t, now)
  }

  lemma FreshSnoc(records: seq<RequestTelemetry>, r: RequestTelemetry, maxAge: int, now: int)
    ensures Fresh(records + [r], maxAge, now) ==
            if Stale(r, maxAge, now) then Fresh(records, maxAge, now) else Fresh(records, maxAge, now) + [r]
  {
    FreshConcat(records, [r], maxAge, now);
    assert [r][1..] == [];
  }

  lemma SpanSnoc(records: seq<RequestTelemetry>, r: RequestTelemetry, m: nat, maxAge: int, t: int, now: int)
    ensures Span(records + [r], m, maxAge, t, now) ==
            if m == 0 then 0
            else (if Stale(r, maxAge, t) then 0 else 1)
                 + Span(records, if Stale(r, maxAge, now) then m else m - 1, maxAge, t, now)
  {
    assert (records + [r])[..|records|] == records;
  }

  /** Dropping the records that are stale at some time makes no span longer, and none
      shorter if it is the time the span is taken at. */
  lemma {:induction false} SpanFresh(records: seq<RequestTelemetry>, m: nat, maxAge: int, u: int, t: int, now: int)
    requires u <= now
    ensures Span(Fresh(records, maxAge, u), m, maxAge, t, now) <= Span(records, m, maxAge, t, now)
    ensures u == t ==> Span(Fresh(records, maxAge, u), m, maxAge, t, now) == Span(records, m, maxAge, t, now)
    decreases |records|
  {
    if records != [] && m > 0 {
      var n := |records| - 1;
      var r, front, m' := records[n], records[..n], if Stale(records[n], maxAge, now) then m else m - 1;
      assert records == front + [r];
      FreshSnoc(front, r, maxAge, u);
      SpanFresh(front, m', maxAge, u, t, now);
      SpanSnoc(front, r, m, maxAge, t, now);
      SpanSnoc(Fresh(front, maxAge, u), r, m, maxAge, t, now);
    }
  }

  /** How many more of the records before r are needed for m that are fresh now. */
  function Left(r: RequestTelemetry, m: nat, maxAge: int, now: int): nat
    requires m > 0
  {
    if Stale(r, maxAge, now) then m else m - 1
  }

  lemma SpanLastNSnoc(front: seq<RequestTelemetry>, r: RequestTelemetry, n: nat, m: nat, maxAge: int, t: int, now: int)
    requires m > 0 && n > 0
    requires var m' := Left(r, m, maxAge, now);
             Span(LastN(front, n - 1), m', maxAge, t, now) <= Span(front, m', maxAge, t, now)
    ensures Span(LastN(front + [r], n), m, maxAge, t, now) <= Span(front + [r], m, maxAge, t, now)
  {
    LastNSnoc(front, r, n);
    SpanSnoc(front, r, m, maxAge, t, now);
    SpanSnoc(LastN(front, n - 1), r, m, maxAge, t, now);
  }

  lemma {:induction false} SpanLastN(records: seq<RequestTelemetry>, n: nat, m: nat, maxAge: int, t: int, now: int)
    ensures Span(LastN(records, n), m, maxAge, t, now) <= Span(records, m, maxAge, t, now)
    decreases |records|
  {
    if records != [] && m > 0 && n > 0 {
      var front, r := records[..|records| - 1], records[|records| - 1];
      assert records == front + [r];
      SpanLastN(front, n - 1, Left(r, m, maxAge, now), maxAge, t, now);
      SpanLastNSnoc(front, r, n, m, maxAge, t, now);
    } else if n == 0 {
      assert LastN(records, n) == [];
    }
  }

  lemma {:induction false} SpanLater(records: seq<RequestTelemetry>, m: nat, maxAge: int, early: int, late: int,
                                     now: int)
    requires early <= late
    ensures Span(records, m, maxAge, late, now) <= Span(records, m, maxAge, early, now)
    decreases |records|
  {
    if records != [] && m > 0 {
      var n := |records| - 1;
      SpanLater(records[..n], if Stale(records[n], maxAge, now) then m else m - 1, maxAge, early, late, now);
    }
  }

  lemma FreshAmongSnoc(front: seq<RequestTelemetry>, r: RequestTelemetry, n: nat, maxAge: int, now: int)
    requires n > 0
    ensures FreshAmong(front + [r], n, maxAge, now) ==
            FreshAmong(front, n - 1, maxAge, now) + if Stale(r, maxAge, now) then 0 else 1
    ensures |Fresh(front + [r], maxAge, now)| == |Fresh(front, maxAge, now)| + if Stale(r, maxAge, now) then 0 else 1
  {
    LastNSnoc(front, r, n);
    FreshSnoc(LastN(front, n - 1), r, maxAge, now);
    FreshSnoc(front, r, maxAge, now);
  }

  predicate NoneStale(records: seq<RequestTelemetry>, maxAge: int, t: int) {
    forall i :: 0 <= i < |records| ==> !Stale(records[i], maxAge, t)
  }

  /** Of records all fresh at time t, the last n hold m that are fresh now if and only if
      the span of those m is at most n. */
  lemma {:induction false} SpanFits(records: seq<RequestTelemetry>, n: nat, m: nat, maxAge: int, t: int, now: int)
    requires NoneStale(records, maxAge, t) && m <= |Fresh(records, maxAge, now)|
    ensures FreshAmong(records, n, maxAge, now) >= m <==> Span(records, m, maxAge, t, now) <= n
    decreases |records|
  {
    if records != [] && m > 0 {
      var front, r := records[..|records| - 1], records[|records| - 1];
      assert records == front + [r];
      SpanSnoc(front, r, m, maxAge, t, now);
      if n > 0 {
        FreshAmongSnoc(front, r, n, maxAge, now);
        SpanFits(front, n - 1, Left(r, m, maxAge, now), maxAge, t, now);
      }
    }
  }

  lemma {:induction false} FreshIsFresh(records: seq<RequestTelemetry>, maxAge: int, t: int)
    ensures forall r :: r in Fresh(records, maxAge, t) ==> !Stale(r, maxAge, t)
  {
    if records != [] { FreshIsFresh(records[1..], maxAge, t); }
  }

  /** What a cleanup at time t leaves still holds m records fresh now if and only if the
      span of those m fits. */
  lemma RetainFits(records: seq<RequestTelemetry>, policy: RetentionPolicy, m: nat, t: int, now: int)
    requires t <= now && m <= |Fresh(records, Normalize(policy).maxAge, now)|
    ensures var p := Normalize(policy);
            |Fresh(Retain(records, policy, t), p.maxAge, now)| >= m <==>
            Span(records, m, p.maxAge, t, now) <= p.maxRecords
  {
    var p := Normalize(policy);
    var young := Fresh(records, p.maxAge, t);
    FreshIsFresh(records, p.maxAge, t);
    assert forall i :: 0 <= i < |young| ==> young[i] in young;
    FreshLater(records, p.maxAge, t, now);
    SpanFits(young, p.maxRecords, m, p.maxAge, t, now);
    SpanFresh(records, m, p.maxAge, t, t, now);
  }

  /** The store never spreads its fresh records further than the list of everything. */
  predicate Denser(run: seq<RequestTelemetry>, all: seq<RequestTelemetry>, m: nat, maxAge: int, t: int, now: int) {
    Span(run, m, maxAge, t, now) <= Span(all, m, maxAge, t, now)
  }

  lemma {:induction false} RunIsDenser(policy: RetentionPolicy, events: seq<Event>, m: nat, t: int, now: int)
    requires NotAfter(events, now)
    ensures Denser(Run([], policy, events), Everything([], events), m, Normalize(policy).maxAge, t, now)
    decreases |events|
  {
    if events != [] {
      var before, p := events[..|events| - 1], Normalize(policy);
      var run, all := Run([], policy, before), Everything([], before);
      match events[|events| - 1]
      case Record(record) =>
        var r := Redact(record);
        SpanSnoc(run, r, m, p.maxAge, t, now);
        SpanSnoc(all, r, m, p.maxAge, t, now);
        if m > 0 { RunIsDenser(policy, before, if Stale(r, p.maxAge, now) then m else m - 1, t, now); }
      case Cleanup(u) =>
        RunIsDenser(policy, before, m, t, now);
        SpanFresh(run, m, p.maxAge, u, t, now);
        SpanLastN(Fresh(run, p.maxAge, u), p.maxRecords, m, p.maxAge, t, now);
    }
  }

  /** Enough is left for the last cleanup, given what is still to be recorded. */
  predicate Enough(run: seq<RequestTelemetry>, rest: seq<RequestTelemetry>, n: nat, maxAge: int, now: int) {
    |Fresh(run, maxAge, now)| + |Fresh(rest, maxAge, now)| >= n
  }

  lemma SafeCleanup(all: seq<RequestTelemetry>, policy: RetentionPolicy, events: seq<Event>, t: int, now: int)
    requires Safe(all, policy, now) && NotAfter(events, now)
    requires var done := Everything([], events); done <= all && Latest(done) <= t <= now
    requires Enough(Run([], policy, events), all[|Everything([], events)|..], |Retain(all, policy, now)|,
                    Normalize(policy).maxAge, now)
    ensures Enough(Retain(Run([], policy, events), policy, t), all[|Everything([], events)|..],
                   |Retain(all, policy, now)|, Normalize(policy).maxAge, now)
  {
    var p, done, run := Normalize(policy), Everything([], events), Run([], policy, events);
    var others := |Fresh(all[|done|..], p.maxAge, now)|;
    if others < |Retain(all, policy, now)| {
      var m := |Retain(all, policy, now)| - others;
      assert done == all[..|done|];
      assert SafeAt(all, policy, now, |done|);
      RetainFresh(done, policy, Latest(done), now);
      RetainFits(done, policy, m, Latest(done), now);
      SpanLater(done, m, p.maxAge, Latest(done), t, now);
      RunIsDenser(policy, events, m, t, now);
      RetainFits(run, policy, m, t, now);
    }
  }

  lemma RetainFresh(records: seq<RequestTelemetry>, policy: RetentionPolicy, t: int, now: int)
    requires t <= now
    ensures |Fresh(Retain(records, policy, t), Normalize(policy).maxAge, now)| <=
            |Fresh(records, Normalize(policy).maxAge, now)|
  {
    var p := Normalize(policy);
    var young := Fresh(records, p.maxAge, t);
    LastNIsSuffix(young, p.maxRecords);
    FreshSuffix(LastN(young, p.maxRecords), young, p.maxAge, now);
    FreshLater(records, p.maxAge, t, now);
  }

  lemma InTimePrefix(events: seq<Event>, n: nat, now: int)
    requires InTime(events, now) && n <= |events|
    ensures InTime(events[..n], now)
  {
    assert forall i :: 0 <= i < n ==> events[..n][..i] == events[..i];
  }

  lemma InTimeNotAfter(events: seq<Event>, now: int)
    requires InTime(events, now)
    ensures NotAfter(events, now)
  {
  }

  lemma EnoughRecord(run: seq<RequestTelemetry>, all: seq<RequestTelemetry>, j: nat, n: nat, maxAge: int, now: int)
    requires j < |all| && Enough(run, all[j..], n, maxAge, now)
    ensures Enough(run + [all[j]], all[j + 1..], n, maxAge, now)
  {
    assert all[j..] == [all[j]] + all[j + 1..];
    FreshConcat([all[j]], all[j + 1..], maxAge, now);
    FreshConcat(run, [all[j]], maxAge, now);
  }

  lemma {:induction false} SafeRun(all: seq<RequestTelemetry>, policy: RetentionPolicy, events: seq<Event>, now: int)
    requires Safe(all, policy, now) && InTime(events, now) && Everything([], events) <= all
    ensures Enough(Run([], policy, events), all[|Everything([], events)|..], |Retain(all, policy, now)|,
                   Normalize(policy).maxAge, now)
    decreases |events|
  {
    if events == [] {
      assert all[0..] == all;
    } else {
      var n := |events| - 1;
      var before := events[..n];
      var done, kept := Everything([], before), |Retain(all, policy, now)|;
      InTimePrefix(events, n, now);
      InTimeNotAfter(before, now);
      SafeRun(all, policy, before, now);
      match events[n]
      case Record(record) =>
        assert all[|done|] == (done + [Redact(record)])[|done|];
        EnoughRecord(Run([], policy, before), all, |done|, kept, Normalize(policy).maxAge, now);
      case Cleanup(t) =>
        SafeCleanup(all, policy, before, t, now);
    }
  }

  lemma {:induction false} RunConcat(policy: RetentionPolicy, first: seq<Event>, all: seq<RequestTelemetry>)
    requires Private(all)
    ensures Run([], policy, first + Recording(all)) == Run([], policy, first) + all
    ensures Everything([], first + Recording(all)) == Everything([], first) + all
    decreases |all|
  {
    if all == [] {
      assert first + Recording(all) == first;
    } else {
      var n := |all| - 1;
      var events := first + Recording(all);
      assert events[..|events| - 1] == first + Recording(all[..n]);
      assert all == all[..n] + [all[n]] && Redact(all[n]) == all[n];
      RunConcat(policy, first, all[..n]);
      Text.Assoc(Run([], policy, first), all[..n], [all[n]]);
      Text.Assoc(Everything([], first), all[..n], [all[n]]);
    }
  }

  function OneCleanup(done: seq<RequestTelemetry>, t: int, rest: seq<RequestTelemetry>): seq<Event> {
    Recording(done) + [Cleanup(t)] + Recording(rest)
  }

  lemma OneCleanupInTime(done: seq<RequestTelemetry>, t: int, rest: seq<RequestTelemetry>, now: int)
    requires Private(done) && Latest(done) <= t <= now
    ensures InTime(OneCleanup(done, t, rest), now)
  {
    var events := OneCleanup(done, t, rest);
    RecordingRecords(done, DefaultRetentionPolicy);
    assert events[..|done|] == Recording(done);
    forall i | 0 <= i < |events| && events[i].Cleanup?
      ensures Latest(Everything([], events[..i])) <= events[i].now <= now
    {
      assert i == |done|;
    }
  }

  lemma OneCleanupRun(done: seq<RequestTelemetry>, t: int, rest: seq<RequestTelemetry>, policy: RetentionPolicy)
    requires Private(done) && Private(rest)
    ensures Run([], policy, OneCleanup(done, t, rest)) == Retain(done, policy, t) + rest
    ensures Everything([], OneCleanup(done, t, rest)) == done + rest
  {
    var first := Recording(done) + [Cleanup(t)];
    assert first[..|done|] == Recording(done);
    RecordingRecords(done, policy);
    RunConcat(policy, first, rest);
  }

  /** Exactly on safe records the schedule makes no difference as long as cleanups follow
      the clock. */
  lemma ClockedScheduleIff(all: seq<RequestTelemetry>, policy: RetentionPolicy, now: int)
    requires Private(all)
    ensures ClockFree(all, policy, now) <==> Safe(all, policy, now)
  {
    var p := Normalize(policy);
    if ClockFree(all, policy, now) {
      forall j | 0 <= j <= |all| && Latest(all[..j]) <= now ensures SafeAt(all, policy, now, j) {
        var done, t, rest := all[..j], Latest(all[..j]), all[j..];
        var events := OneCleanup(done, t, rest);
        OneCleanupInTime(done, t, rest, now);
        OneCleanupRun(done, t, rest, policy);
        assert all == done + rest;
        FreshConcat(Retain(done, policy, t), rest, p.maxAge, now);
        LastNIsSuffix(Fresh(Run([], policy, events), p.maxAge, now), p.maxRecords);
      }
    }
    if Safe(all, policy, now) {
      forall events | InTime(events, now) && Everything([], events) == all
        ensures Retain(Run([], policy, events), policy, now) == Retain(all, policy, now)
      {
        SafeRun(all, policy, events, now);
        InTimeNotAfter(events, now);
        assert all[|all|..] == [];
        RunFresh([], policy, events, now);
        SameLast(Fresh(Run([], policy, events), p.maxAge, now), Fresh(all, p.maxAge, now), p.maxRecords);
      }
    }
  }

  function Started(t: int): RequestTelemetry {
    RequestTelemetry("", "", "", "", "", false, 200, 0, "", 0, 0, t, "", "")
  }

  lemma FreshTwo(a: RequestTelemetry, b: RequestTelemetry, maxAge: int, now: int)
    ensures Fresh([b], maxAge, now) == if Stale(b, maxAge, now) then [] else [b]
    ensures Fresh([a, b], maxAge, now) == (if Stale(a, maxAge, now) then [] else [a]) + Fresh([b], maxAge, now)
  {
    assert [a, b][1..] == [b] && [b][1..] == [];
  }

  /** With room for one record, a cleanup at time t drops the first record in favour of
      the later arrival; if that one has expired by now, both are lost. */
  lemma LateArrivalLoses(a: RequestTelemetry, b: RequestTelemetry, policy: RetentionPolicy, t: int, now: int)
    requires Private([a, b]) && Normalize(policy).maxRecords == 1
    requires var maxAge := Normalize(policy).maxAge;
             !Stale(a, maxAge, now) && !Stale(b, maxAge, t) && Stale(b, maxAge, now)
    ensures Retain(Run([], policy, OneCleanup([a, b], t, [])), policy, now) == []
    ensures Retain(Everything([], OneCleanup([a, b], t, [])), policy, now) == [a]
  {
    var p := Normalize(policy);
    FreshTwo(a, b, p.maxAge, t);
    FreshTwo(a, b, p.maxAge, now);
    OneCleanupRun([a, b], t, [], policy);
    assert Retain([a, b], policy, t) == [b];
    assert [b] + [] == [b] && [a, b] + [] == [a, b] && [a] + [] == [a];
  }

  lemma LatestTwo(a: RequestTelemetry, b: RequestTelemetry)
    requires a.startedAt >= b.startedAt && a.startedAt >= 0
    ensures Latest([a, b]) == a.startedAt
  {
    assert [a, b][..1] == [a] && [a][..0] == [];
    assert Latest([a]) == a.startedAt;
  }

  /** Out of order, a cleanup that follows the clock can lose a record. */
  lemma OutOfOrderCanLose()
    ensures var policy, events := RetentionPolicy(1, 10), OneCleanup([Started(20), Started(12)], 21, []);
            && InTime(events, 25)
            && Retain(Run([], policy, events), policy, 25) == []
            && Retain(Everything([], events), policy, 25) == [Started(20)]
  {
    LatestTwo(Started(20), Started(12));
    OneCleanupInTime([Started(20), Started(12)], 21, [], 25);
    LateArrivalLoses(Started(20), Started(12), RetentionPolicy(1, 10), 21, 25);
  }

  lemma SafeTwo(a: RequestTelemetry, b: RequestTelemetry, policy: RetentionPolicy, now: int)
    requires Normalize(policy).maxRecords == 1 && 0 <= b.startedAt <= a.startedAt <= now
    requires var maxAge := Normalize(policy).maxAge;
             !Stale(a, maxAge, now) && Stale(b, maxAge, a.startedAt) && Stale(b, maxAge, now)
    ensures Safe([a, b], policy, now) && !Covered([a, b], policy, now)
  {
    var p, all := Normalize(policy), [a, b];
    LatestTwo(a, b);
    assert Latest([a]) == a.startedAt by { assert [a][..0] == []; }
    FreshTwo(a, b, p.maxAge, now);
    FreshTwo(a, b, p.maxAge, a.startedAt);
    assert all[..0] == [] && all[0..] == all && all[..1] == [a] && all[1..] == [b] && all[..2] == all && all[2..] == [];
    FreshTwo(b, a, p.maxAge, now);
    FreshTwo(b, a, p.maxAge, a.startedAt);
    forall j | 0 <= j <= |all| && Latest(all[..j]) <= now ensures SafeAt(all, policy, now, j) {
      assert j == 0 || j == 1 || j == 2;
    }
  }

  /** A schedule no clock can produce may lose more: these records are safe, although a
      cleanup dated before the first start would lose the first one. */
  lemma SafeButNotCovered()
    ensures var policy, all := RetentionPolicy(1, 10), [Started(20), Started(5)];
            !Covered(all, policy, 25) && Safe(all, policy, 25)
  {
    SafeTwo(Started(20), Started(5), RetentionPolicy(1, 10), 25);
  }
}
