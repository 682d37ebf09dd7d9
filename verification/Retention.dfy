/**
 Retention (internal/ccr/retention.go): which objects a cleanup removes. Two phases,
 first by age and then by total size, turn out to be one cut in age order; the other
 theorems follow from that.
 */
module Retention {
  import Text
  import opened Store

  datatype ObjectInfo = ObjectInfo(path: Path, size: nat, modTime: int)

  /** A zero or negative limit means no limit. */
  datatype RetentionPolicy = RetentionPolicy(maxAge: int, maxBytes: int)

  predicate Expired(o: ObjectInfo, policy: RetentionPolicy, now: int) {
    policy.maxAge > 0 && o.modTime < now - policy.maxAge
  }

  predicate AllExpired(s: seq<ObjectInfo>, policy: RetentionPolicy, now: int) {
    forall o :: o in s ==> Expired(o, policy, now)
  }

  predicate NoneExpired(s: seq<ObjectInfo>, policy: RetentionPolicy, now: int) {
    forall o :: o in s ==> !Expired(o, policy, now)
  }

  // ----- Age order and cuts -----

  predicate SortedByTime(s: seq<ObjectInfo>) {
    forall i, j :: 0 <= i < j < |s| ==> s[i].modTime <= s[j].modTime
  }

  /** One of the orders the sort may produce: oldest first, ties in any order. */
  predicate AgeOrder(order: seq<ObjectInfo>, objects: seq<ObjectInfo>) {
    SortedByTime(order) && multiset(order) == multiset(objects)
  }

  function Total(s: seq<ObjectInfo>): nat {
    if s == [] then 0 else s[0].size + Total(s[1..])
  }

  function ExpiredCount(s: seq<ObjectInfo>, policy: RetentionPolicy, now: int): nat {
    if s == [] then 0 else (if Expired(s[0], policy, now) then 1 else 0) + ExpiredCount(s[1..], policy, now)
  }

  /** The least number of leading objects whose removal brings the rest within the
      limit. */
  function LeastCut(s: seq<ObjectInfo>, maxBytes: int): (k: nat)
    requires maxBytes > 0
    ensures k <= |s| && Total(s[k..]) <= maxBytes
    ensures forall j :: 0 <= j < k ==> Total(s[j..]) > maxBytes
  {
    if Total(s) <= maxBytes then assert s[0..] == s; 0
    else
      var k := LeastCut(s[1..], maxBytes);
      assert forall j :: 1 <= j <= |s| ==> s[1..][j - 1..] == s[j..];
      assert s[0..] == s;
      k + 1
  }

  function BytesCut(s: seq<ObjectInfo>, maxBytes: int): nat {
    if maxBytes > 0 then LeastCut(s, maxBytes) else 0
  }

  /** The later of two cuts. */
  function LaterOf(a: nat, b: nat): nat {
    if a >= b then a else b
  }

  /** How many of the oldest objects go. */
  function Cut(order: seq<ObjectInfo>, policy: RetentionPolicy, now: int): nat {
    LaterOf(ExpiredCount(order, policy, now), BytesCut(order, policy.maxBytes))
  }

  function Paths(s: seq<ObjectInfo>): set<Path> {
    set o | o in s :: o.path
  }

  /** The paths of the oldest objects up to the cut, in this age order. */
  predicate CutInOrder(objects: seq<ObjectInfo>, policy: RetentionPolicy, now: int, remove: set<Path>,
                       order: seq<ObjectInfo>)
  {
    && AgeOrder(order, objects)
    && Cut(order, policy, now) <= |order|
    && remove == Paths(order[..Cut(order, policy, now)])
  }

  /** The same in some age order: which one is up to the sort. */
  ghost predicate RemovesOldest(objects: seq<ObjectInfo>, policy: RetentionPolicy, now: int, remove: set<Path>) {
    exists order :: CutInOrder(objects, policy, now, remove, order)
  }

  // ----- Sorting -----

  lemma MultisetSplit<T>(s: seq<T>, j: nat)
    requires j < |s|
    ensures multiset(s) == multiset(s[..j] + s[j + 1..]) + multiset{s[j]}
  {
    assert s == s[..j] + [s[j]] + s[j + 1..];
  }

  lemma MultisetCons<T>(x: T, s: seq<T>)
    ensures multiset([x] + s) == multiset{x} + multiset(s)
  {
  }

  lemma MultisetTail<T>(s: seq<T>)
    requires s != []
    ensures multiset(s) == multiset{s[0]} + multiset(s[1..])
  {
    MultisetCons(s[0], s[1..]);
    assert s == [s[0]] + s[1..];
  }

  lemma MultisetCancel<T>(x: T, a: multiset<T>, b: multiset<T>)
    requires multiset{x} + a == multiset{x} + b
    ensures a == b
  {
    assert a == (multiset{x} + a) - multiset{x};
    assert b == (multiset{x} + b) - multiset{x};
  }

  lemma SortedTail(s: seq<ObjectInfo>)
    requires SortedByTime(s) && s != []
    ensures SortedByTime(s[1..])
  {
  }

  function Insert(o: ObjectInfo, s: seq<ObjectInfo>): seq<ObjectInfo> {
    if s == [] || o.modTime <= s[0].modTime then [o] + s else [s[0]] + Insert(o, s[1..])
  }

  lemma {:induction false} InsertKeeps(o: ObjectInfo, s: seq<ObjectInfo>)
    ensures multiset(Insert(o, s)) == multiset{o} + multiset(s)
  {
    if s == [] || o.modTime <= s[0].modTime {
      MultisetCons(o, s);
    } else {
      InsertKeeps(o, s[1..]);
      MultisetCons(s[0], Insert(o, s[1..]));
      MultisetTail(s);
    }
  }

  lemma SortedCons(o: ObjectInfo, s: seq<ObjectInfo>)
    requires SortedByTime(s) && forall x :: x in s ==> o.modTime <= x.modTime
    ensures SortedByTime([o] + s)
  {
  }

  lemma {:induction false} InsertSorts(o: ObjectInfo, s: seq<ObjectInfo>)
    requires SortedByTime(s)
    ensures SortedByTime(Insert(o, s))
  {
    if s == [] || o.modTime <= s[0].modTime {
      SortedCons(o, s);
    } else {
      InsertSorts(o, s[1..]);
      InsertKeeps(o, s[1..]);
      var r := Insert(o, s[1..]);
      forall x | x in r ensures s[0].modTime <= x.modTime {
        assert x in multiset(r);
        assert x == o || x in s[1..];
      }
      SortedCons(s[0], r);
    }
  }

  function Sort(s: seq<ObjectInfo>): (r: seq<ObjectInfo>)
    ensures AgeOrder(r, s)
  {
    if s == [] then []
    else
      var rest := Sort(s[1..]);
      InsertKeeps(s[0], rest);
      InsertSorts(s[0], rest);
      MultisetTail(s);
      Insert(s[0], rest)
  }

  /** sort.Slice by modification time: callers know only that the result is sorted and
      has the same objects. */
  method SortSlice(s: seq<ObjectInfo>) returns (sorted: seq<ObjectInfo>)
    ensures AgeOrder(sorted, s)
  {
    sorted := Sort(s);
  }

  // ----- Choosing what to remove -----

  lemma MembersSnoc<T>(s: seq<T>, x: T)
    ensures multiset(s + [x]) == multiset(s) + multiset{x}
    ensures forall y :: y in s + [x] <==> y in s || y == x
  {
  }

  /** The objects seen so far, divided into expired and kept ones. */
  predicate Divided(seen: seq<ObjectInfo>, expired: seq<ObjectInfo>, kept: seq<ObjectInfo>,
                    policy: RetentionPolicy, now: int)
  {
    && multiset(expired) + multiset(kept) == multiset(seen)
    && AllExpired(expired, policy, now) && NoneExpired(kept, policy, now)
  }

  lemma DividedSnoc(seen: seq<ObjectInfo>, expired: seq<ObjectInfo>, kept: seq<ObjectInfo>,
                    policy: RetentionPolicy, now: int, entry: ObjectInfo)
    requires Divided(seen, expired, kept, policy, now)
    ensures if Expired(entry, policy, now)
            then Divided(seen + [entry], expired + [entry], kept, policy, now)
            else Divided(seen + [entry], expired, kept + [entry], policy, now)
    ensures Paths(expired + [entry]) == Paths(expired) + {entry.path}
  {
    MembersSnoc(seen, entry);
    MembersSnoc(expired, entry);
    MembersSnoc(kept, entry);
    PathsConcat(expired, [entry]);
  }

  /** The first loop of cleanupCandidates: expired objects go, the others are kept. */
  method SplitByAge(objects: seq<ObjectInfo>, policy: RetentionPolicy, now: int)
    returns (remove: set<Path>, kept: seq<ObjectInfo>, ghost expired: seq<ObjectInfo>)
    ensures multiset(expired) + multiset(kept) == multiset(objects)
    ensures AllExpired(expired, policy, now)
    ensures NoneExpired(kept, policy, now)
    ensures remove == Paths(expired)
  {
    remove, kept, expired := {}, [], [];
    for i := 0 to |objects|
      invariant Divided(objects[..i], expired, kept, policy, now)
      invariant remove == Paths(expired)
    {
      var entry := objects[i];
      assert objects[..i + 1] == objects[..i] + [entry];
      DividedSnoc(objects[..i], expired, kept, policy, now, entry);
      if policy.maxAge > 0 && entry.modTime < now - policy.maxAge {
        remove := remove + {entry.path};
        expired := expired + [entry];
        continue;
      }
      kept := kept + [entry];
    }
    assert objects[..|objects|] == objects;
  }

  /** cleanupCandidates. The removed paths are those of the oldest objects, up to one
      cut, in the age order that was used. */
  method CleanupCandidates(objects: seq<ObjectInfo>, policy: RetentionPolicy, now: int)
    returns (remove: set<Path>)
    ensures RemovesOldest(objects, policy, now, remove)
    ensures DistinctPaths(objects) ==> forall o :: o in objects ==> FollowsPolicy(objects, policy, now, remove, o)
  {
    var kept;
    ghost var expired;
    remove, kept, expired := SplitByAge(objects, policy, now);
    ghost var rest := Sort(kept);
    SameMembers(rest, kept);
    if policy.maxBytes > 0 {
      var sorted := SortSlice(kept);
      SameMembers(sorted, kept);
      kept, rest := sorted, sorted;
      var over := EvictToSize(kept, policy.maxBytes);
      remove := remove + over;
    }
    OneCut(objects, expired, rest, policy, now);
    assert CutInOrder(objects, policy, now, remove, Sort(expired) + rest);
    if DistinctPaths(objects) {
      forall o | o in objects ensures FollowsPolicy(objects, policy, now, remove, o) {
        CandidatesFollowPolicy(objects, policy, now, remove, o);
      }
    }
  }

  /** Expired objects and the oldest of the rest, as one cut. */
  lemma OneCut(objects: seq<ObjectInfo>, expired: seq<ObjectInfo>, rest: seq<ObjectInfo>,
               policy: RetentionPolicy, now: int)
    requires multiset(expired) + multiset(rest) == multiset(objects) && SortedByTime(rest)
    requires AllExpired(expired, policy, now)
    requires NoneExpired(rest, policy, now)
    ensures var order, k := Sort(expired) + rest, BytesCut(rest, policy.maxBytes);
            && AgeOrder(order, objects)
            && k <= |rest| && Cut(order, policy, now) == |expired| + k <= |order|
            && Paths(order[..|expired| + k]) == Paths(expired) + Paths(rest[..k])
  {
    var oldest, k := Sort(expired), BytesCut(rest, policy.maxBytes);
    SameMembers(oldest, expired);
    SamePaths(oldest, expired);
    assert |oldest| == |multiset(oldest)| == |multiset(expired)| == |expired|;
    TwoPhases(oldest, rest, policy, now);
    PathsPrefix(oldest, rest, k);
  }

  lemma PathsPrefix(a: seq<ObjectInfo>, b: seq<ObjectInfo>, k: nat)
    requires k <= |b|
    ensures Paths((a + b)[..|a| + k]) == Paths(a) + Paths(b[..k])
  {
    assert (a + b)[..|a| + k] == a + b[..k];
    PathsConcat(a, b[..k]);
  }

  method SumSizes(kept: seq<ObjectInfo>) returns (total: nat)
    ensures total == Total(kept)
  {
    total := 0;
    for i := 0 to |kept|
      invariant total == Total(kept[..i])
    {
      assert kept[..i + 1] == kept[..i] + [kept[i]];
      TotalConcat(kept[..i], [kept[i]]);
      total := total + kept[i].size;
    }
    assert kept[..|kept|] == kept;
  }

  lemma CutStep(kept: seq<ObjectInfo>, i: nat)
    requires i < |kept|
    ensures Total(kept[i..]) == kept[i].size + Total(kept[i + 1..])
    ensures Paths(kept[..i + 1]) == Paths(kept[..i]) + {kept[i].path}
  {
    assert kept[i..][1..] == kept[i + 1..];
    assert kept[..i + 1] == kept[..i] + [kept[i]];
    PathsConcat(kept[..i], [kept[i]]);
  }

  /** The second and third loop of cleanupCandidates, over objects oldest first. */
  method EvictToSize(kept: seq<ObjectInfo>, maxBytes: int) returns (remove: set<Path>)
    requires maxBytes > 0
    ensures remove == Paths(kept[..LeastCut(kept, maxBytes)])
  {
    var total := SumSizes(kept);
    remove := {};
    var i := 0;
    assert kept[0..] == kept;
    while i < |kept| && total > maxBytes
      invariant 0 <= i <= LeastCut(kept, maxBytes)
      invariant total == Total(kept[i..])
      invariant remove == Paths(kept[..i])
    {
      CutStep(kept, i);
      remove := remove + {kept[i].path};
      total := total - kept[i].size;
      i := i + 1;
    }
  }

  // ----- Sums, counts and paths -----

  lemma {:induction false} TotalConcat(a: seq<ObjectInfo>, b: seq<ObjectInfo>)
    ensures Total(a + b) == Total(a) + Total(b)
    decreases |a|
  {
    if a == [] {
      assert a + b == b;
    } else {
      assert (a + b)[1..] == a[1..] + b;
      TotalConcat(a[1..], b);
    }
  }

  lemma TotalSuffix(s: seq<ObjectInfo>, i: nat, j: nat)
    requires i <= j <= |s|
    ensures Total(s[j..]) <= Total(s[i..])
  {
    assert s[i..] == s[i..j] + s[j..];
    TotalConcat(s[i..j], s[j..]);
  }

  lemma PathsConcat(a: seq<ObjectInfo>, b: seq<ObjectInfo>)
    ensures Paths(a + b) == Paths(a) + Paths(b)
  {
  }

  lemma SameMembers(a: seq<ObjectInfo>, b: seq<ObjectInfo>)
    requires multiset(a) == multiset(b)
    ensures forall o :: o in a <==> o in b
  {
    forall o ensures o in a <==> o in b {
      assert o in a <==> o in multiset(a);
      assert o in b <==> o in multiset(b);
    }
  }

  lemma SamePaths(a: seq<ObjectInfo>, b: seq<ObjectInfo>)
    requires multiset(a) == multiset(b)
    ensures Paths(a) == Paths(b)
  {
    SameMembers(a, b);
  }

  lemma {:induction false} CountAll(s: seq<ObjectInfo>, policy: RetentionPolicy, now: int)
    ensures AllExpired(s, policy, now) ==> ExpiredCount(s, policy, now) == |s|
    ensures NoneExpired(s, policy, now) ==> ExpiredCount(s, policy, now) == 0
  {
    if s != [] {
      assert s[0] in s && forall o :: o in s[1..] ==> o in s;
      CountAll(s[1..], policy, now);
    }
  }

  lemma {:induction false} CountConcat(a: seq<ObjectInfo>, b: seq<ObjectInfo>, policy: RetentionPolicy, now: int)
    ensures ExpiredCount(a + b, policy, now) == ExpiredCount(a, policy, now) + ExpiredCount(b, policy, now)
    decreases |a|
  {
    if a == [] {
      assert a + b == b;
    } else {
      assert (a + b)[1..] == a[1..] + b;
      CountConcat(a[1..], b, policy, now);
    }
  }

  // ----- Two phases are one cut -----

  lemma CutIs(s: seq<ObjectInfo>, maxBytes: int, k: nat)
    requires maxBytes > 0 && k <= |s| && Total(s[k..]) <= maxBytes
    ensures LeastCut(s, maxBytes) <= k
    ensures (forall j :: 0 <= j < k ==> Total(s[j..]) > maxBytes) ==> LeastCut(s, maxBytes) == k
  {
  }

  /** Cutting the unexpired rest by size is cutting everything at the later of the two
      limits. */
  lemma {:induction false} BytesCutAfter(aged: seq<ObjectInfo>, rest: seq<ObjectInfo>, maxBytes: int)
    requires maxBytes > 0
    ensures LaterOf(|aged|, LeastCut(aged + rest, maxBytes)) == |aged| + LeastCut(rest, maxBytes)
    decreases |aged|
  {
    if aged == [] {
      assert aged + rest == rest;
    } else {
      assert (aged + rest)[1..] == aged[1..] + rest;
      TotalConcat(aged, rest);
      BytesCutAfter(aged[1..], rest, maxBytes);
    }
  }

  lemma TwoPhases(expired: seq<ObjectInfo>, rest: seq<ObjectInfo>, policy: RetentionPolicy, now: int)
    requires SortedByTime(expired) && SortedByTime(rest)
    requires AllExpired(expired, policy, now)
    requires NoneExpired(rest, policy, now)
    ensures SortedByTime(expired + rest)
    ensures Cut(expired + rest, policy, now) == |expired| + BytesCut(rest, policy.maxBytes)
  {
    CountAll(expired, policy, now);
    CountAll(rest, policy, now);
    CountConcat(expired, rest, policy, now);
    if policy.maxBytes > 0 { BytesCutAfter(expired, rest, policy.maxBytes); }
    forall i, j | 0 <= i < j < |expired + rest|
      ensures (expired + rest)[i].modTime <= (expired + rest)[j].modTime
    {
      if i < |expired| <= j {
        assert expired[i] in expired && rest[j - |expired|] in rest;
      }
    }
  }

  // ----- Stricter policies -----

  /** Every limit of q is there in p and no looser. */
  predicate Stricter(p: RetentionPolicy, q: RetentionPolicy) {
    && (q.maxAge > 0 ==> 0 < p.maxAge <= q.maxAge)
    && (q.maxBytes > 0 ==> 0 < p.maxBytes <= q.maxBytes)
  }

  /** No two different objects share a modification time. */
  predicate DistinctTimes(s: seq<ObjectInfo>) {
    forall x, y :: x in s && y in s && x.modTime == y.modTime ==> x == y
  }

  lemma {:induction false} ExpiredMonotone(s: seq<ObjectInfo>, p: RetentionPolicy, q: RetentionPolicy, now: int)
    requires Stricter(p, q)
    ensures ExpiredCount(s, q, now) <= ExpiredCount(s, p, now) <= |s|
  {
    if s != [] { ExpiredMonotone(s[1..], p, q, now); }
  }

  lemma CutMonotone(order: seq<ObjectInfo>, p: RetentionPolicy, q: RetentionPolicy, now: int)
    requires Stricter(p, q)
    ensures Cut(order, q, now) <= Cut(order, p, now) <= |order|
  {
    ExpiredMonotone(order, p, q, now);
    if q.maxBytes > 0 {
      CutIs(order, q.maxBytes, LeastCut(order, p.maxBytes));
    }
  }

  lemma OldestAgree(a: seq<ObjectInfo>, b: seq<ObjectInfo>)
    requires SortedByTime(a) && SortedByTime(b) && multiset(a) == multiset(b) && DistinctTimes(a) && a != [] && b != []
    ensures a[0] == b[0]
  {
    SameMembers(a, b);
    assert a[0] in b && b[0] in a;
    var i :| 0 <= i < |a| && a[i] == b[0];
    var j :| 0 <= j < |b| && b[j] == a[0];
    assert a[0].modTime <= a[i].modTime && b[0].modTime <= b[j].modTime;
    assert a[0] in a && a[i] in a;
  }

  lemma TailsMatch(a: seq<ObjectInfo>, b: seq<ObjectInfo>)
    requires a != [] && b != [] && a[0] == b[0] && multiset(a) == multiset(b) && DistinctTimes(a)
    ensures multiset(a[1..]) == multiset(b[1..]) && DistinctTimes(a[1..])
  {
    MultisetTail(a);
    MultisetTail(b);
    MultisetCancel(a[0], multiset(a[1..]), multiset(b[1..]));
    assert forall x :: x in a[1..] ==> x in a;
  }

  lemma SameFirst<T>(a: seq<T>, b: seq<T>)
    requires a != [] && b != [] && a[0] == b[0] && a[1..] == b[1..]
    ensures a == b
  {
    assert a == [a[0]] + a[1..] && b == [b[0]] + b[1..];
  }

  /** With distinct times there is only one age order. */
  lemma {:induction false} AgeOrderUnique(a: seq<ObjectInfo>, b: seq<ObjectInfo>)
    requires SortedByTime(a) && SortedByTime(b) && multiset(a) == multiset(b) && DistinctTimes(a)
    ensures a == b
    decreases |a|
  {
    assert |a| == |multiset(a)| == |multiset(b)| == |b|;
    if a != [] {
      OldestAgree(a, b);
      TailsMatch(a, b);
      SortedTail(a);
      SortedTail(b);
      AgeOrderUnique(a[1..], b[1..]);
      SameFirst(a, b);
    }
  }

  /** A stricter policy removes at least as much, whatever orders the sorts produce. */
  lemma StricterRemovesMore(objects: seq<ObjectInfo>, p: RetentionPolicy, q: RetentionPolicy, now: int,
                            removeP: set<Path>, removeQ: set<Path>)
    requires DistinctTimes(objects) && Stricter(p, q)
    requires RemovesOldest(objects, p, now, removeP) && RemovesOldest(objects, q, now, removeQ)
    ensures removeQ <= removeP
  {
    var orderP :| CutInOrder(objects, p, now, removeP, orderP);
    var orderQ :| CutInOrder(objects, q, now, removeQ, orderQ);
    SameMembers(orderP, objects);
    AgeOrderUnique(orderP, orderQ);
    CutMonotone(orderP, p, q, now);
    var i, j := Cut(orderP, q, now), Cut(orderP, p, now);
    assert orderP[..j] == orderP[..i] + orderP[i..j];
    PathsConcat(orderP[..i], orderP[i..j]);
  }

  // ----- What is left -----

  predicate DistinctPaths(s: seq<ObjectInfo>) {
    forall i, j :: 0 <= i < j < |s| ==> s[i].path != s[j].path
  }

  function Remaining(objects: seq<ObjectInfo>, remove: set<Path>): seq<ObjectInfo> {
    if objects == [] then []
    else (if objects[0].path in remove then [] else [objects[0]]) + Remaining(objects[1..], remove)
  }

  function Chosen(objects: seq<ObjectInfo>, paths: set<Path>): seq<ObjectInfo> {
    if objects == [] then []
    else (if objects[0].path in paths then [objects[0]] else []) + Chosen(objects[1..], paths)
  }

  lemma {:induction false} ChosenConcat(a: seq<ObjectInfo>, b: seq<ObjectInfo>, paths: set<Path>)
    ensures Chosen(a + b, paths) == Chosen(a, paths) + Chosen(b, paths)
    decreases |a|
  {
    if a == [] {
      assert a + b == b && [] + Chosen(b, paths) == Chosen(b, paths);
    } else {
      assert (a + b)[0] == a[0] && (a + b)[1..] == a[1..] + b;
      ChosenConcat(a[1..], b, paths);
      Text.Assoc(if a[0].path in paths then [a[0]] else [], Chosen(a[1..], paths), Chosen(b, paths));
    }
  }

  /** Choosing and leaving divide the objects and their bytes. */
  lemma {:induction false} ChosenAndRemaining(objects: seq<ObjectInfo>, paths: set<Path>)
    ensures |Chosen(objects, paths)| + |Remaining(objects, paths)| == |objects|
    ensures Total(Chosen(objects, paths)) + Total(Remaining(objects, paths)) == Total(objects)
  {
    if objects != [] {
      ChosenAndRemaining(objects[1..], paths);
      var picked, left := Chosen(objects[1..], paths), Remaining(objects[1..], paths);
      TotalConcat([objects[0]], picked);
      TotalConcat([objects[0]], left);
      assert [] + picked == picked && [] + left == left;
    }
  }

  lemma {:induction false} ChosenApart(objects: seq<ObjectInfo>, a: set<Path>, b: set<Path>)
    requires a !! b
    ensures |Chosen(objects, a)| + |Chosen(objects, b)| == |Chosen(objects, a + b)|
  {
    if objects != [] { ChosenApart(objects[1..], a, b); }
  }

  lemma {:induction false} ChosenAlike(objects: seq<ObjectInfo>, a: set<Path>, b: set<Path>)
    requires forall o :: o in objects ==> (o.path in a <==> o.path in b)
    ensures Chosen(objects, a) == Chosen(objects, b)
  {
    if objects != [] {
      assert objects[0] in objects && forall o :: o in objects[1..] ==> o in objects;
      ChosenAlike(objects[1..], a, b);
    }
  }

  /** With distinct paths, as many objects are chosen as there are paths to choose. */
  lemma {:induction false} ChosenSize(objects: seq<ObjectInfo>, paths: set<Path>)
    requires DistinctPaths(objects) && paths <= Paths(objects)
    ensures |Chosen(objects, paths)| == |paths|
  {
    if objects == [] {
      assert paths == {};
    } else {
      var first, rest := objects[0].path, objects[1..];
      var others := paths - {first};
      assert objects == [objects[0]] + rest;
      PathsConcat([objects[0]], rest);
      ChosenSize(rest, others);
      ChosenAlike(rest, paths, others);
    }
  }

  lemma {:induction false} RemainingCount(objects: seq<ObjectInfo>, remove: set<Path>, o: ObjectInfo)
    ensures multiset(Remaining(objects, remove))[o] == if o.path in remove then 0 else multiset(objects)[o]
  {
    if objects != [] {
      RemainingCount(objects[1..], remove, o);
      assert objects == [objects[0]] + objects[1..];
    }
  }

  lemma RemainingSame(a: seq<ObjectInfo>, b: seq<ObjectInfo>, remove: set<Path>)
    requires multiset(a) == multiset(b)
    ensures multiset(Remaining(a, remove)) == multiset(Remaining(b, remove))
  {
    forall o ensures multiset(Remaining(a, remove))[o] == multiset(Remaining(b, remove))[o] {
      RemainingCount(a, remove, o);
      RemainingCount(b, remove, o);
    }
  }

  lemma TotalWithout(s: seq<ObjectInfo>, j: nat)
    requires j < |s|
    ensures Total(s) == s[j].size + Total(s[..j] + s[j + 1..])
  {
    var a, x, b := s[..j], [s[j]], s[j + 1..];
    assert s == a + x + b;
    TotalConcat(a + x, b);
    TotalConcat(a, x);
    TotalConcat(a, b);
  }

  lemma {:induction false} TotalSame(a: seq<ObjectInfo>, b: seq<ObjectInfo>)
    requires multiset(a) == multiset(b)
    ensures Total(a) == Total(b)
    decreases |a|
  {
    if a == [] {
      assert |multiset(b)| == |b|;
    } else {
      SameMembers(a, b);
      assert a[0] in a;
      var j :| 0 <= j < |b| && b[j] == a[0];
      var b' := b[..j] + b[j + 1..];
      TotalWithout(b, j);
      MultisetTail(a);
      MultisetSplit(b, j);
      MultisetCancel(a[0], multiset(a[1..]), multiset(b'));
      TotalSame(a[1..], b');
    }
  }

  lemma {:induction false} RemainingConcat(a: seq<ObjectInfo>, b: seq<ObjectInfo>, remove: set<Path>)
    ensures Remaining(a + b, remove) == Remaining(a, remove) + Remaining(b, remove)
    decreases |a|
  {
    if a == [] {
      assert a + b == b;
    } else {
      assert (a + b)[0] == a[0] && (a + b)[1..] == a[1..] + b;
      RemainingConcat(a[1..], b, remove);
      Text.Assoc(if a[0].path in remove then [] else [a[0]], Remaining(a[1..], remove), Remaining(b, remove));
    }
  }

  lemma {:induction false} RemainingAll(s: seq<ObjectInfo>, remove: set<Path>)
    ensures (forall o :: o in s ==> o.path in remove) ==> Remaining(s, remove) == []
    ensures (forall o :: o in s ==> o.path !in remove) ==> Remaining(s, remove) == s
  {
    if s != [] {
      assert s[0] in s && forall o :: o in s[1..] ==> o in s;
      RemainingAll(s[1..], remove);
    }
  }

  lemma DistinctPathsSame(a: seq<ObjectInfo>, b: seq<ObjectInfo>)
    requires multiset(a) == multiset(b) && DistinctPaths(a)
    ensures DistinctPaths(b)
  {
    SameMembers(a, b);
    forall i, j | 0 <= i < j < |b| ensures b[i].path != b[j].path {
      assert b[i] in a && b[j] in a;
      if b[i] == b[j] {
        assert b == b[..i] + [b[i]] + b[i + 1..j] + [b[j]] + b[j + 1..];
        assert multiset(b)[b[i]] >= 2;
        TwiceIsNotDistinct(a, b[i]);
      }
    }
  }

  lemma {:induction false} OnceInDistinct(a: seq<ObjectInfo>, o: ObjectInfo)
    requires DistinctPaths(a)
    ensures multiset(a)[o] <= 1
  {
    if a != [] {
      OnceInDistinct(a[1..], o);
      assert a == [a[0]] + a[1..];
      if a[0] == o {
        assert forall x :: x in a[1..] ==> x.path != o.path;
        assert o !in a[1..];
      }
    }
  }

  lemma TwiceIsNotDistinct(a: seq<ObjectInfo>, o: ObjectInfo)
    requires multiset(a)[o] >= 2
    ensures !DistinctPaths(a)
  {
    if DistinctPaths(a) { OnceInDistinct(a, o); }
  }

  /** What a cut leaves behind is exactly the young end of the order. */
  lemma RemainingIsTail(objects: seq<ObjectInfo>, order: seq<ObjectInfo>, k: nat)
    requires DistinctPaths(objects) && multiset(order) == multiset(objects) && k <= |order|
    ensures multiset(Remaining(objects, Paths(order[..k]))) == multiset(order[k..])
  {
    var remove := Paths(order[..k]);
    DistinctPathsSame(objects, order);
    RemainingSame(objects, order, remove);
    assert order == order[..k] + order[k..];
    RemainingConcat(order[..k], order[k..], remove);
    RemainingAll(order[..k], remove);
    TailIsApart(order, k);
    RemainingAll(order[k..], remove);
    assert [] + order[k..] == order[k..];
  }

  lemma TailIsApart(order: seq<ObjectInfo>, k: nat)
    requires DistinctPaths(order) && k <= |order|
    ensures forall o :: o in order[k..] ==> o.path !in Paths(order[..k])
  {
    forall o, x | o in order[k..] && x in order[..k] ensures o.path != x.path {
      var j :| 0 <= j < |order[k..]| && order[k..][j] == o;
      var i :| 0 <= i < k && order[..k][i] == x;
      assert order[k + j] == o && order[i] == x;
    }
  }

  /** After a cleanup without failures the rest is within the byte limit, and a second
      cleanup at the same time finds nothing to remove. */
  lemma CleanupIsComplete(objects: seq<ObjectInfo>, policy: RetentionPolicy, now: int, remove: set<Path>,
                          left: seq<ObjectInfo>)
    requires DistinctPaths(objects) && RemovesOldest(objects, policy, now, remove)
    requires multiset(left) == multiset(Remaining(objects, remove))
    ensures policy.maxBytes > 0 ==> Total(left) <= policy.maxBytes
    ensures forall again :: RemovesOldest(left, policy, now, again) ==> again == {}
  {
    var order :| CutInOrder(objects, policy, now, remove, order);
    RemainingIsTail(objects, order, Cut(order, policy, now));
    TotalSame(left, order[Cut(order, policy, now)..]);
    NothingLeftToCut(order, policy, now, left);
    forall again | RemovesOldest(left, policy, now, again) ensures again == {} {
      var next :| CutInOrder(left, policy, now, again, next);
      NothingLeftToCut(order, policy, now, next);
    }
  }

  /** The part of the order behind the cut gives no reason for another cut. */
  lemma NothingLeftToCut(order: seq<ObjectInfo>, policy: RetentionPolicy, now: int, next: seq<ObjectInfo>)
    requires SortedByTime(order) && Cut(order, policy, now) <= |order|
    requires multiset(next) == multiset(order[Cut(order, policy, now)..])
    ensures policy.maxBytes > 0 ==> Total(order[Cut(order, policy, now)..]) <= policy.maxBytes
    ensures Cut(next, policy, now) == 0
  {
    var k := Cut(order, policy, now);
    TotalSame(next, order[k..]);
    if policy.maxBytes > 0 {
      TotalSuffix(order, LeastCut(order, policy.maxBytes), k);
      assert next[0..] == next;
      CutIs(next, policy.maxBytes, 0);
    }
    SameMembers(next, order[k..]);
    ExpiredAreOldest(order, policy, now, k);
    CountAll(next, policy, now);
  }

  /** The expired objects lie before any cut that is at least as long as their number. */
  lemma {:induction false} ExpiredAreOldest(order: seq<ObjectInfo>, policy: RetentionPolicy, now: int, k: nat)
    requires SortedByTime(order) && ExpiredCount(order, policy, now) <= k <= |order|
    ensures forall o :: o in order[k..] ==> !Expired(o, policy, now)
    decreases |order|
  {
    if order != [] {
      if Expired(order[0], policy, now) {
        ExpiredAreOldest(order[1..], policy, now, k - 1);
        assert order[1..][k - 1..] == order[k..];
      } else {
        assert forall o :: o in order ==> !Expired(o, policy, now);
        assert forall o :: o in order[k..] ==> o in order;
      }
    }
  }

  // ----- The candidates, object by object -----

  /** The objects modified at this time or later. */
  function Since(objects: seq<ObjectInfo>, t: int): seq<ObjectInfo> {
    if objects == [] then []
    else (if objects[0].modTime >= t then [objects[0]] else []) + Since(objects[1..], t)
  }

  function BytesSince(objects: seq<ObjectInfo>, t: int): nat {
    Total(Since(objects, t))
  }

  lemma {:induction false} SinceCount(objects: seq<ObjectInfo>, t: int, o: ObjectInfo)
    ensures multiset(Since(objects, t))[o] == if o.modTime >= t then multiset(objects)[o] else 0
  {
    if objects != [] {
      SinceCount(objects[1..], t, o);
      assert objects == [objects[0]] + objects[1..];
    }
  }

  lemma SinceSame(a: seq<ObjectInfo>, b: seq<ObjectInfo>, t: int)
    requires multiset(a) == multiset(b)
    ensures BytesSince(a, t) == BytesSince(b, t)
  {
    forall o ensures multiset(Since(a, t))[o] == multiset(Since(b, t))[o] {
      SinceCount(a, t, o);
      SinceCount(b, t, o);
    }
    TotalSame(Since(a, t), Since(b, t));
  }

  lemma {:induction false} SinceConcat(a: seq<ObjectInfo>, b: seq<ObjectInfo>, t: int)
    ensures Since(a + b, t) == Since(a, t) + Since(b, t)
    decreases |a|
  {
    if a == [] {
      assert a + b == b && [] + Since(b, t) == Since(b, t);
    } else {
      assert (a + b)[0] == a[0] && (a + b)[1..] == a[1..] + b;
      SinceConcat(a[1..], b, t);
      Text.Assoc(if a[0].modTime >= t then [a[0]] else [], Since(a[1..], t), Since(b, t));
    }
  }

  lemma {:induction false} SinceAll(s: seq<ObjectInfo>, t: int)
    ensures (forall o :: o in s ==> o.modTime >= t) ==> Since(s, t) == s
    ensures (forall o :: o in s ==> o.modTime < t) ==> Since(s, t) == []
  {
    if s != [] {
      assert s[0] in s && forall o :: o in s[1..] ==> o in s;
      SinceAll(s[1..], t);
    }
  }

  lemma SinceBack(front: seq<ObjectInfo>, back: seq<ObjectInfo>, t: int)
    requires forall o :: o in back ==> o.modTime >= t
    ensures Total(back) <= BytesSince(front + back, t)
  {
    SinceConcat(front, back, t);
    SinceAll(back, t);
    TotalConcat(Since(front, t), back);
  }

  lemma SinceAfter(front: seq<ObjectInfo>, x: ObjectInfo, rest: seq<ObjectInfo>)
    requires forall o :: o in front ==> o.modTime <= x.modTime
    ensures BytesSince(front + ([x] + rest), x.modTime + 1) <= Total(rest)
  {
    var t := x.modTime + 1;
    SinceConcat(front, [x] + rest, t);
    SinceConcat([x], rest, t);
    SinceAll(front, t);
    SinceAll([x], t);
    SinceNoMore(rest, t);
    assert [] + ([] + Since(rest, t)) == Since(rest, t);
  }

  lemma SortedAround(order: seq<ObjectInfo>, k: nat)
    requires SortedByTime(order) && k < |order|
    ensures forall o :: o in order[..k] ==> o.modTime <= order[k].modTime
    ensures forall o :: o in order[k..] ==> o.modTime >= order[k].modTime
  {
    forall o | o in order[..k] ensures o.modTime <= order[k].modTime {
      var i :| 0 <= i < k && order[..k][i] == o;
      assert order[i] == o;
    }
    forall o | o in order[k..] ensures o.modTime >= order[k].modTime {
      var i :| 0 <= i < |order| - k && order[k..][i] == o;
      assert order[k + i] == o;
    }
  }

  lemma SplitAt<T>(s: seq<T>, k: nat)
    requires k < |s|
    ensures s == s[..k] + s[k..] && s[k..] == [s[k]] + s[k + 1..]
  {
  }

  lemma SinceAround(front: seq<ObjectInfo>, x: ObjectInfo, rest: seq<ObjectInfo>)
    requires forall o :: o in front ==> o.modTime <= x.modTime
    requires forall o :: o in [x] + rest ==> o.modTime >= x.modTime
    ensures var order := front + ([x] + rest);
            && x.size + Total(rest) <= BytesSince(order, x.modTime)
            && BytesSince(order, x.modTime + 1) <= Total(rest)
  {
    SinceBack(front, [x] + rest, x.modTime);
    Text.ConsDrop(x, rest);
    SinceAfter(front, x, rest);
  }

  /** In age order, the bytes from position k on lie between those modified later than
      object k, with its own, and those modified no earlier. */
  lemma SinceAt(order: seq<ObjectInfo>, k: nat)
    requires SortedByTime(order) && k < |order|
    ensures Total(order[k..]) <= BytesSince(order, order[k].modTime)
    ensures order[k].size + BytesSince(order, order[k].modTime + 1) <= Total(order[k..])
  {
    SortedAround(order, k);
    SplitAt(order, k);
    CutStep(order, k);
    SinceAround(order[..k], order[k], order[k + 1..]);
  }

  lemma {:induction false} SinceNoMore(s: seq<ObjectInfo>, t: int)
    ensures BytesSince(s, t) <= Total(s)
  {
    if s != [] {
      SinceNoMore(s[1..], t);
      TotalConcat([s[0]], Since(s[1..], t));
      assert [] + Since(s[1..], t) == Since(s[1..], t);
    }
  }

  /** What the policy says of a single object: past its age it goes; before, it goes only if
      there is a byte limit and the objects no older than it exceed that; and it stays only
      if it fits together with the newer ones. */
  predicate FollowsPolicy(objects: seq<ObjectInfo>, policy: RetentionPolicy, now: int, remove: set<Path>,
                          o: ObjectInfo)
  {
    && (policy.maxAge > 0 && o.modTime < now - policy.maxAge ==> o.path in remove)
    && (o.path in remove ==>
         || (policy.maxAge > 0 && o.modTime < now - policy.maxAge)
         || (policy.maxBytes > 0 && BytesSince(objects, o.modTime) > policy.maxBytes))
    && (o.path !in remove && policy.maxBytes > 0 ==>
         o.size + BytesSince(objects, o.modTime + 1) <= policy.maxBytes)
  }

  lemma {:induction false} ExpiredFirst(order: seq<ObjectInfo>, policy: RetentionPolicy, now: int, k: nat)
    requires SortedByTime(order) && k < |order|
    ensures k < ExpiredCount(order, policy, now) <==> Expired(order[k], policy, now)
    decreases |order|
  {
    if Expired(order[0], policy, now) {
      if k > 0 {
        SortedTail(order);
        ExpiredFirst(order[1..], policy, now, k - 1);
      }
    } else {
      assert forall o :: o in order ==> !Expired(o, policy, now);
      CountAll(order, policy, now);
    }
  }

  lemma CutFollowsPolicy(order: seq<ObjectInfo>, policy: RetentionPolicy, now: int, k: nat)
    requires SortedByTime(order) && DistinctPaths(order) && k < |order| && Cut(order, policy, now) <= |order|
    ensures FollowsPolicy(order, policy, now, Paths(order[..Cut(order, policy, now)]), order[k])
  {
    var cut := Cut(order, policy, now);
    ExpiredFirst(order, policy, now, k);
    SinceAt(order, k);
    assert k < cut <==> order[k].path in Paths(order[..cut]) by {
      if k < cut {
        assert order[..cut][k] == order[k];
      } else {
        TailIsApart(order, cut);
        assert order[cut..][k - cut] == order[k];
      }
    }
    if k >= cut && policy.maxBytes > 0 { TotalSuffix(order, LeastCut(order, policy.maxBytes), k); }
  }

  lemma FollowsSame(a: seq<ObjectInfo>, b: seq<ObjectInfo>, policy: RetentionPolicy, now: int, remove: set<Path>,
                    o: ObjectInfo)
    requires multiset(a) == multiset(b) && FollowsPolicy(a, policy, now, remove, o)
    ensures FollowsPolicy(b, policy, now, remove, o)
  {
    var t := o.modTime + 1;
    SinceSame(a, b, o.modTime);
    SinceSame(a, b, t);
    assert BytesSince(a, t) == BytesSince(b, t);
  }

  /** Object by object, a cleanup removes what the policy says and nothing else. */
  lemma CandidatesFollowPolicy(objects: seq<ObjectInfo>, policy: RetentionPolicy, now: int, remove: set<Path>,
                               o: ObjectInfo)
    requires DistinctPaths(objects) && RemovesOldest(objects, policy, now, remove) && o in objects
    ensures FollowsPolicy(objects, policy, now, remove, o)
  {
    var order :| CutInOrder(objects, policy, now, remove, order);
    DistinctPathsSame(objects, order);
    SameMembers(order, objects);
    var k :| 0 <= k < |order| && order[k] == o;
    CutFollowsPolicy(order, policy, now, k);
    FollowsSame(order, objects, policy, now, remove, o);
  }

  /** With distinct modification times the size rule is exact as well. */
  lemma CandidatesIff(objects: seq<ObjectInfo>, policy: RetentionPolicy, now: int, remove: set<Path>, o: ObjectInfo)
    requires DistinctPaths(objects) && RemovesOldest(objects, policy, now, remove) && o in objects
    requires forall x :: x in objects && x.modTime == o.modTime ==> x == o
    ensures o.path in remove <==>
      || (policy.maxAge > 0 && o.modTime < now - policy.maxAge)
      || (policy.maxBytes > 0 && BytesSince(objects, o.modTime) > policy.maxBytes)
  {
    CandidatesFollowPolicy(objects, policy, now, remove, o);
    SinceAlone(objects, o);
  }

  /** The objects modified no earlier than o are o and the newer ones. */
  lemma {:induction false} SinceAlone(objects: seq<ObjectInfo>, o: ObjectInfo)
    requires DistinctPaths(objects)
    requires forall x :: x in objects && x.modTime == o.modTime ==> x == o
    ensures BytesSince(objects, o.modTime) ==
            (if o in objects then o.size else 0) + BytesSince(objects, o.modTime + 1)
    decreases |objects|
  {
    if objects != [] {
      var x, rest := objects[0], objects[1..];
      assert x in objects && forall y :: y in rest ==> y in objects;
      assert forall y :: y in rest ==> y.path != x.path;
      SinceAlone(rest, o);
      TotalConcat([x], Since(rest, o.modTime));
      TotalConcat([x], Since(rest, o.modTime + 1));
      assert [] + Since(rest, o.modTime) == Since(rest, o.modTime);
      assert [] + Since(rest, o.modTime + 1) == Since(rest, o.modTime + 1);
      assert o in objects <==> o == x || o in rest;
      assert Total([x]) == x.size by { assert [x][1..] == []; }
    }
  }
}
