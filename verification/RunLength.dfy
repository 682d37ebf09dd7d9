/**
 The run-length compressors for repeated log lines, text blocks and code lines
 (internal/compress/native_text_log.go, internal/compress/native_structured.go).

 `Collapse` says what collapsing computes, `Expand` undoes it, and the theorems
 at the end of the module state the inversion for whole texts, through splitting,
 marker printing and joining.
 */
module RunLength {
  import opened Outcome
  import opened Text

  /** What collapseAdjacent is called with: the key that decides which neighbours
      are the same, and the noun its markers count. */
  datatype Unit = Unit(key: string -> string, noun: string)

  // ----- Markers -----

  const Opening := "[repeated "

  function Closing(u: Unit): string {
    " " + u.noun + " omitted]"
  }

  function Repeated(u: Unit, n: nat): string {
    Opening + Dec(n) + Closing(u)
  }

  /** The number of omitted items a marker stands for, if the item is a marker. */
  function ParseRepeated(u: Unit, item: string): Option<nat> {
    var p, q := |Opening|, |item| - |Closing(u)|;
    if p < q && item[..p] == Opening && item[q..] == Closing(u) && AllDigits(item[p..q])
       && Val(item[p..q]) > 0 && Dec(Val(item[p..q])) == item[p..q]
    then Some(Val(item[p..q])) else None
  }

  predicate IsMarker(u: Unit, item: string) {
    ParseRepeated(u, item).Some?
  }

  /** Markers are exactly the printed ones, each with its own count. */
  lemma ParseRepeatedExact(u: Unit, item: string, n: nat)
    ensures ParseRepeated(u, item) == Some(n) <==> n > 0 && item == Repeated(u, n)
  {
    var r := Repeated(u, n);
    var p, q := |Opening|, |r| - |Closing(u)|;
    assert r[..p] == Opening && r[q..] == Closing(u) && r[p..q] == Dec(n);
    ValDec(n);
    if ParseRepeated(u, item) == Some(n) {
      var q' := |item| - |Closing(u)|;
      assert item == item[..p] + item[p..q'] + item[q'..];
    }
  }

  lemma MarkerShape(u: Unit, n: nat)
    requires '\n' !in u.noun
    ensures '\n' !in Repeated(u, n)
  {
    assert forall i :: 0 <= i < |Dec(n)| ==> IsDigit(Dec(n)[i]);
    assert '\n' !in Opening && '\n' !in " omitted]" && '\n' !in " ";
    assert '\n' !in Closing(u);
  }

  /** The key leaves markers alone, so a marker can only meet a key of marker form. */
  ghost predicate KeepsMarkers(u: Unit) {
    && u.key("") == ""
    && forall n: nat {:trigger Repeated(u, n)} :: u.key(Repeated(u, n)) == Repeated(u, n)
  }

  // ----- Collapsing -----

  /** Number of leading items that share the first item's non-empty key. */
  function RunLen(u: Unit, items: seq<string>): (r: nat)
    requires items != []
    ensures 1 <= r <= |items|
    ensures forall i :: 0 <= i < r ==> u.key(items[i]) == u.key(items[0])
    ensures r < |items| && u.key(items[0]) != "" ==> u.key(items[r]) != u.key(items[0])
    ensures u.key(items[0]) == "" ==> r == 1
  {
    if |items| > 1 && u.key(items[0]) != "" && u.key(items[1]) == u.key(items[0])
    then 1 + RunLen(u, items[1..]) else 1
  }

  function Run(u: Unit, item: string, repeats: nat): (out: seq<string>)
    requires repeats > 0
  {
    if repeats > 1 then [item] + [Repeated(u, repeats - 1)] else [item]
  }

  function Collapse(u: Unit, items: seq<string>): (out: seq<string>)
    ensures |out| <= |items|
    ensures items != [] ==> out != [] && out[0] == items[0]
    decreases |items|
  {
    if items == [] then []
    else
      var r := RunLen(u, items);
      Run(u, items[0], r) + Collapse(u, items[r..])
  }

  lemma {:induction false} RunLenIs(u: Unit, items: seq<string>, r: nat)
    requires 1 <= r <= |items|
    requires forall i :: 0 <= i < r ==> u.key(items[i]) == u.key(items[0])
    requires r > 1 ==> u.key(items[0]) != ""
    requires r < |items| && u.key(items[0]) != "" ==> u.key(items[r]) != u.key(items[0])
    ensures RunLen(u, items) == r
  {
    if r > 1 {
      RunLenIs(u, items[1..], r - 1);
    }
  }

  /** What is still to be appended from position i on. */
  function Pending(u: Unit, items: seq<string>, i: nat): seq<string>
    requires i <= |items|
  {
    Collapse(u, items[i..])
  }

  /** One turn of the outer loop: the run at position i and what is left after it. */
  lemma CollapseAt(u: Unit, items: seq<string>, i: nat, r: nat, before: seq<string>, after: seq<string>)
    requires i < |items| && r == RunLen(u, items[i..]) && after == before + Run(u, items[i], r)
    ensures i + r <= |items| && after + Pending(u, items, i + r) == before + Pending(u, items, i)
  {
    assert items[i..][r..] == items[i + r..];
    Assoc(before, Run(u, items[i], r), Pending(u, items, i + r));
  }

  /** A run of equal non-empty keys at the front collapses on its own. */
  lemma CollapseFirstRun(u: Unit, run: seq<string>, rest: seq<string>)
    requires run != [] && u.key(run[0]) != ""
    requires forall i :: 0 <= i < |run| ==> u.key(run[i]) == u.key(run[0])
    requires rest != [] ==> u.key(rest[0]) != u.key(run[0])
    ensures Collapse(u, run + rest) == Run(u, run[0], |run|) + Collapse(u, rest)
  {
    RunLenIs(u, run + rest, |run|);
    AppendDrop(run, rest);
  }

  /** The inner scan of collapseAdjacent: how far the run at position i reaches. */
  method CountRepeats(u: Unit, items: seq<string>, i: nat) returns (repeats: nat)
    requires i < |items|
    ensures repeats == RunLen(u, items[i..])
  {
    var itemKey := u.key(items[i]);
    repeats := 1;
    while i + repeats < |items| && itemKey != "" && u.key(items[i + repeats]) == itemKey
      invariant 1 <= repeats && i + repeats <= |items|
      invariant forall k :: i <= k < i + repeats ==> u.key(items[k]) == itemKey
      invariant repeats > 1 ==> itemKey != ""
    {
      repeats := repeats + 1;
    }
    RunLenIs(u, items[i..], repeats);
  }

  /** The first item of a run and, if it has more, the marker for the others. */
  method AppendRun(u: Unit, before: seq<string>, item: string, repeats: nat) returns (collapsed: seq<string>)
    requires repeats > 0
    ensures collapsed == before + Run(u, item, repeats)
  {
    collapsed := before + [item];
    if repeats > 1 {
      Assoc(before, [item], [Repeated(u, repeats - 1)]);
      collapsed := collapsed + [Repeated(u, repeats - 1)];
    }
  }

  /** One turn of the outer loop: append the run at position i and move past it. */
  method CollapseRun(u: Unit, items: seq<string>, i: nat, before: seq<string>)
    returns (next: nat, collapsed: seq<string>)
    requires i < |items|
    ensures i < next <= |items|
    ensures collapsed + Pending(u, items, next) == before + Pending(u, items, i)
  {
    var repeats := CountRepeats(u, items, i);
    collapsed := AppendRun(u, before, items[i], repeats);
    CollapseAt(u, items, i, repeats, before, collapsed);
    next := i + repeats;
  }

  /** collapseAdjacent. */
  method CollapseAdjacent(u: Unit, items: seq<string>) returns (collapsed: seq<string>)
    ensures collapsed == Collapse(u, items)
  {
    collapsed := [];
    var i := 0;
    ghost var goal := Collapse(u, items);
    assert items[0..] == items;
    while i < |items|
      invariant 0 <= i <= |items|
      invariant collapsed + Pending(u, items, i) == goal
    {
      i, collapsed := CollapseRun(u, items, i, collapsed);
    }
  }

  // ----- Expanding -----

  function Copies(item: string, n: nat): seq<string> {
    seq(n, _ => item)
  }

  /** Reads a collapsed list back: an item followed by a marker stands for itself
      and for as many more copies as the marker says. */
  function Expand(u: Unit, out: seq<string>): seq<string> {
    if out == [] then []
    else if |out| > 1 && IsMarker(u, out[1])
    then Copies(out[0], 1 + ParseRepeated(u, out[1]).value) + Expand(u, out[2..])
    else [out[0]] + Expand(u, out[1..])
  }

  predicate SameKeys(u: Unit, a: seq<string>, b: seq<string>) {
    |a| == |b| && forall i :: 0 <= i < |a| ==> u.key(a[i]) == u.key(b[i])
  }

  predicate NoMarkers(u: Unit, items: seq<string>) {
    forall i :: 0 <= i < |items| ==> !IsMarker(u, items[i])
  }

  predicate NoMarkerKeys(u: Unit, items: seq<string>) {
    forall i :: 0 <= i < |items| ==> !IsMarker(u, u.key(items[i]))
  }

  lemma {:induction false} ExpandRun(u: Unit, item: string, repeats: nat, rest: seq<string>)
    requires repeats > 0 && (repeats == 1 && rest != [] ==> !IsMarker(u, rest[0]))
    ensures Expand(u, Run(u, item, repeats) + rest) == Copies(item, repeats) + Expand(u, rest)
  {
    var out := Run(u, item, repeats) + rest;
    if repeats > 1 {
      ParseRepeatedExact(u, Repeated(u, repeats - 1), repeats - 1);
      assert out[1] == Repeated(u, repeats - 1) && out[2..] == rest && out[0] == item;
    } else {
      assert out[1..] == rest && out[0] == item;
      assert Copies(item, 1) == [item];
    }
  }

  /** What collapsing and expanding makes of a list. */
  function RoundTrip(u: Unit, items: seq<string>): seq<string> {
    Expand(u, Collapse(u, items))
  }

  /** Item i will not be taken for the marker of the item before it: it is no marker,
      repeats its neighbour, or follows a run of at least two. */
  predicate ReadableAt(u: Unit, items: seq<string>, i: nat)
    requires 1 <= i < |items|
  {
    IsMarker(u, items[i]) && u.key(items[i]) != u.key(items[i - 1]) ==>
      i >= 2 && u.key(items[i - 1]) != "" && u.key(items[i - 2]) == u.key(items[i - 1])
  }

  predicate Readable(u: Unit, items: seq<string>) {
    forall i :: 1 <= i < |items| ==> ReadableAt(u, items, i)
  }

  lemma NoMarkersReadable(u: Unit, items: seq<string>)
    requires NoMarkers(u, items)
    ensures Readable(u, items)
  {
  }

  /** The first run ends where a lone item meets a marker that is not its own. */
  predicate Misread(u: Unit, items: seq<string>)
    requires items != []
  {
    RunLen(u, items) == 1 < |items| && IsMarker(u, items[1])
  }

  lemma MarkerKey(u: Unit, item: string)
    requires KeepsMarkers(u) && IsMarker(u, item)
    ensures u.key(item) == item != ""
  {
    ParseRepeatedExact(u, item, ParseRepeated(u, item).value);
  }

  lemma MisreadFails(u: Unit, items: seq<string>)
    requires KeepsMarkers(u) && items != [] && Misread(u, items)
    ensures !Readable(u, items) && !SameKeys(u, RoundTrip(u, items), items)
  {
    MarkerKey(u, items[1]);
    assert !ReadableAt(u, items, 1);
    var out := Collapse(u, items);
    assert out == [items[0]] + Collapse(u, items[1..]);
    assert out[0] == items[0] && out[1] == items[1];
    assert RoundTrip(u, items)[1] == items[0];
  }

  lemma RoundTripFirst(u: Unit, items: seq<string>)
    requires items != [] && !Misread(u, items)
    ensures var r := RunLen(u, items);
            RoundTrip(u, items) == Copies(items[0], r) + RoundTrip(u, items[r..])
  {
    var r := RunLen(u, items);
    ExpandRun(u, items[0], r, Collapse(u, items[r..]));
  }

  lemma ReadableInRun(u: Unit, items: seq<string>, i: nat)
    requires items != [] && !Misread(u, items) && 1 <= i < |items| && i <= RunLen(u, items)
    ensures ReadableAt(u, items, i)
  {
  }

  lemma ReadableShift(u: Unit, items: seq<string>, r: nat, i: nat)
    requires items != [] && r == RunLen(u, items) && r < i < |items|
    ensures ReadableAt(u, items, i) <==> ReadableAt(u, items[r..], i - r)
  {
    var rest := items[r..];
    assert rest[i - r] == items[i] && rest[i - r - 1] == items[i - 1];
    if i - r >= 2 { assert rest[i - r - 2] == items[i - 2]; }
  }

  lemma ReadableFirst(u: Unit, items: seq<string>)
    requires items != [] && !Misread(u, items)
    ensures Readable(u, items) <==> Readable(u, items[RunLen(u, items)..])
  {
    var r := RunLen(u, items);
    var rest := items[r..];
    if Readable(u, items) {
      forall i | 1 <= i < |rest| ensures ReadableAt(u, rest, i) {
        assert ReadableAt(u, items, r + i);
        ReadableShift(u, items, r, r + i);
      }
    }
    if Readable(u, rest) {
      forall i | 1 <= i < |items| ensures ReadableAt(u, items, i) {
        if i <= r {
          ReadableInRun(u, items, i);
        } else {
          assert ReadableAt(u, rest, i - r);
          ReadableShift(u, items, r, i);
        }
      }
    }
  }

  /** Expanding undoes collapsing, item by item and up to keys, if and only if no item
      will be taken for a marker. */
  lemma {:induction false} ExpandCollapseIff(u: Unit, items: seq<string>)
    requires KeepsMarkers(u)
    ensures SameKeys(u, RoundTrip(u, items), items) <==> Readable(u, items)
    decreases |items|
  {
    if items != [] {
      if Misread(u, items) {
        MisreadFails(u, items);
      } else {
        var r := RunLen(u, items);
        ExpandCollapseIff(u, items[r..]);
        RoundTripFirst(u, items);
        ReadableFirst(u, items);
        FirstRunKeys(u, items);
        SameKeysConcatIff(u, Copies(items[0], r), items[..r], RoundTrip(u, items[r..]), items[r..]);
        CutTwice(items, r, r);
      }
    }
  }

  /** An item in marker form after a lone item is misread: it expands to copies of the
      item before it. */
  lemma MarkerIsMisread(u: Unit, item: string, n: nat)
    requires KeepsMarkers(u) && n > 0 && u.key(item) != Repeated(u, n)
    ensures var items := [item] + [Repeated(u, n)];
            RoundTrip(u, items) == Copies(item, n + 1) && !SameKeys(u, RoundTrip(u, items), items)
  {
    var m := Repeated(u, n);
    var items := [item] + [m];
    ParseRepeatedExact(u, m, n);
    RunLenIs(u, items, 1);
    RunLenIs(u, [m], 1);
    MisreadFails(u, items);
    assert items[1..] == [m] && [m][1..] == [] && items[2..] == [];
    assert Collapse(u, [m]) == [m] + [] == [m];
    assert Collapse(u, items) == items;
    assert Expand(u, items) == Copies(item, 1 + n) + Expand(u, items[2..]);
    assert Copies(item, n + 1) + [] == Copies(item, n + 1);
  }

  lemma FirstRunKeys(u: Unit, items: seq<string>)
    requires items != []
    ensures SameKeys(u, Copies(items[0], RunLen(u, items)), items[..RunLen(u, items)])
  {
  }

  lemma SameKeysConcatIff(u: Unit, a: seq<string>, b: seq<string>, c: seq<string>, d: seq<string>)
    requires SameKeys(u, a, b)
    ensures SameKeys(u, a + c, b + d) <==> SameKeys(u, c, d)
  {
    if SameKeys(u, a + c, b + d) {
      forall i | 0 <= i < |c| ensures u.key(c[i]) == u.key(d[i]) {
        assert (a + c)[|a| + i] == c[i] && (b + d)[|a| + i] == d[i];
      }
    }
  }

  /** Collapsing keeps a list re-splittable: retained items keep their place
      relative to the end, and markers hold no line break. */
  lemma {:induction false} CollapseClean(u: Unit, items: seq<string>, sep: string)
    requires Clean(items, sep) && '\n' !in u.noun && sep != [] && sep[0] == '\n'
    ensures Clean(Collapse(u, items), sep)
    decreases |items|
  {
    var r := RunLen(u, items);
    var rest := items[r..];
    if rest == [] {
      RunClean(u, items[0], r, [], sep);
      assert Collapse(u, items) == Run(u, items[0], r) + [];
    } else {
      assert Clean(rest, sep) by { assert rest[|rest| - 1] == items[|items| - 1]; }
      CollapseClean(u, rest, sep);
      RunClean(u, items[0], r, Collapse(u, rest), sep);
    }
  }

  lemma RunClean(u: Unit, item: string, repeats: nat, tail: seq<string>, sep: string)
    requires repeats > 0 && '\n' !in u.noun && sep != [] && sep[0] == '\n'
    requires tail != [] ==> Clean(tail, sep)
    requires if repeats > 1 || tail != [] then CleanBefore(item, sep) else Index(item, sep) < 0
    ensures Clean(Run(u, item, repeats) + tail, sep)
  {
    if repeats > 1 {
      var m := Repeated(u, repeats - 1);
      MarkerShape(u, repeats - 1);
      CleanPart(m, sep);
      ConsClean(m, tail, sep);
      ConsClean(item, [m] + tail, sep);
      Assoc([item], [m], tail);
    } else {
      ConsClean(item, tail, sep);
    }
  }

  lemma ConsClean(part: string, tail: seq<string>, sep: string)
    requires if tail == [] then Index(part, sep) < 0 else CleanBefore(part, sep) && Clean(tail, sep)
    ensures Clean([part] + tail, sep)
  {
    if tail == [] { assert [part] + tail == [part]; } else { CleanCons(part, tail, sep); }
  }

  // ----- Idempotence -----

  /** No two neighbours share a non-empty key: nothing is left to collapse. */
  predicate Collapsed(u: Unit, l: seq<string>) {
    forall i :: 0 <= i < |l| - 1 && u.key(l[i]) != "" ==> u.key(l[i]) != u.key(l[i + 1])
  }

  lemma {:induction false} CollapseLeavesNoRuns(u: Unit, items: seq<string>)
    requires NoMarkerKeys(u, items) && KeepsMarkers(u)
    ensures Collapsed(u, Collapse(u, items))
    decreases |items|
  {
    if items != [] {
      var r := RunLen(u, items);
      var rest := items[r..];
      CollapseLeavesNoRuns(u, rest);
      var tail := Collapse(u, rest);
      if r > 1 {
        var m := Repeated(u, r - 1);
        ParseRepeatedExact(u, m, r - 1);
        CollapsedCons(u, m, tail);
        CollapsedCons(u, items[0], [m] + tail);
        Assoc([items[0]], [m], tail);
      } else {
        CollapsedCons(u, items[0], tail);
      }
    }
  }

  lemma CollapsedCons(u: Unit, item: string, tail: seq<string>)
    requires Collapsed(u, tail)
    requires tail != [] && u.key(item) != "" ==> u.key(item) != u.key(tail[0])
    ensures Collapsed(u, [item] + tail)
  {
    var l := [item] + tail;
    forall i | 0 <= i < |l| - 1 && u.key(l[i]) != "" ensures u.key(l[i]) != u.key(l[i + 1]) {
      if i > 0 { assert l[i] == tail[i - 1] && l[i + 1] == tail[i - 1 + 1]; }
    }
  }

  /** A marker that counts n, in front of these items: they do not begin with its key, or
      begin with a marker that counts one, not itself repeated exactly once. */
  predicate SteadyAfter(u: Unit, n: nat, items: seq<string>) {
    items != [] && u.key(items[0]) == Repeated(u, n) ==> items[0] == Repeated(u, 1) && RunLen(u, items) != 2
  }

  /** Collapsing again would not touch the first run and its marker. */
  predicate SteadyRun(u: Unit, items: seq<string>)
    requires items != []
  {
    var r := RunLen(u, items);
    r > 1 ==> (u.key(items[0]) == Repeated(u, r - 1) ==> r == 2) && SteadyAfter(u, r - 1, items[r..])
  }

  /** No run's marker will be taken for a repeated item, run by run. */
  predicate Steady(u: Unit, items: seq<string>)
    decreases |items|
  {
    items != [] ==> SteadyRun(u, items) && Steady(u, items[RunLen(u, items)..])
  }

  lemma RepeatedInjective(u: Unit, m: nat, n: nat)
    requires m > 0 && Repeated(u, m) == Repeated(u, n)
    ensures m == n
  {
    ParseRepeatedExact(u, Repeated(u, m), m);
    ParseRepeatedExact(u, Repeated(u, n), n);
    assert n > 0 by { if n == 0 { ValDec(m); ValDec(0); DecOf(u, m, n); } }
  }

  lemma DecOf(u: Unit, m: nat, n: nat)
    requires Repeated(u, m) == Repeated(u, n)
    ensures Dec(m) == Dec(n)
  {
    var p := |Opening|;
    var s := Repeated(u, m);
    assert s[p..|s| - |Closing(u)|] == Dec(m);
    var t := Repeated(u, n);
    assert t[p..|t| - |Closing(u)|] == Dec(n);
  }

  /** Collapsing again what a run of length 1 leaves in front. */
  lemma AloneAgain(u: Unit, item: string, tail: seq<string>)
    requires tail != [] && u.key(item) != "" ==> u.key(tail[0]) != u.key(item)
    ensures Collapse(u, [item] + tail) == [item] + Collapse(u, tail)
  {
    var l := [item] + tail;
    RunLenIs(u, l, 1);
    ConsDrop(item, tail);
  }

  /** Two items of one key in front, and then another key. */
  lemma PairAgain(u: Unit, a: string, b: string, tail: seq<string>)
    requires u.key(a) == u.key(b) != "" && (tail != [] ==> u.key(tail[0]) != u.key(a))
    ensures Collapse(u, [a] + ([b] + tail)) == [a] + ([Repeated(u, 1)] + Collapse(u, tail))
  {
    Assoc([a], [b], tail);
    CollapseFirstRun(u, [a] + [b], tail);
    Assoc([a], [Repeated(u, 1)], Collapse(u, tail));
  }

  lemma TripleShrinks(u: Unit, a: string, b: string, c: string, tail: seq<string>)
    requires u.key(a) == u.key(b) == u.key(c) != "" && (tail != [] ==> u.key(tail[0]) != u.key(a))
    ensures |Collapse(u, [a] + ([b] + ([c] + tail)))| < |tail| + 3
  {
    var run := [a] + [b] + [c];
    assert [a] + ([b] + ([c] + tail)) == run + tail;
    CollapseFirstRun(u, run, tail);
  }

  lemma ConsEqual<T>(a: T, b: T, s: seq<T>, t: seq<T>)
    ensures [a] + s == [b] + t <==> a == b && s == t
  {
    ConsDrop(a, s);
    ConsDrop(b, t);
  }

  lemma RestDiffers(u: Unit, items: seq<string>)
    requires items != []
    ensures var r := RunLen(u, items);
            var tail := Collapse(u, items[r..]);
            && (tail != [] ==> items[r..] != [] && tail[0] == items[r])
            && (tail != [] && u.key(items[0]) != "" ==> u.key(tail[0]) != u.key(items[0]))
  {
    var r := RunLen(u, items);
    if items[r..] == [] {
      assert Collapse(u, items[r..]) == [];
    } else {
      assert items[r..][0] == items[r];
    }
  }

  /** The collapsed list, run by run. */
  lemma CollapseParts(u: Unit, items: seq<string>)
    requires items != []
    ensures var r := RunLen(u, items);
            var tail := Collapse(u, items[r..]);
            && Collapse(u, items) == (if r == 1 then [items[0]] + tail else [items[0]] + ([Repeated(u, r - 1)] + tail))
            && (tail != [] ==> items[r..] != [] && tail[0] == items[r])
            && (tail != [] && u.key(items[0]) != "" ==> u.key(tail[0]) != u.key(items[0]))
  {
    var r := RunLen(u, items);
    RestDiffers(u, items);
    if r > 1 { Assoc([items[0]], [Repeated(u, r - 1)], Collapse(u, items[r..])); }
  }

  predicate Fixed(u: Unit, l: seq<string>) {
    Collapse(u, l) == l
  }

  lemma AloneFixed(u: Unit, item: string, tail: seq<string>)
    requires tail != [] && u.key(item) != "" ==> u.key(tail[0]) != u.key(item)
    ensures Fixed(u, [item] + tail) <==> Fixed(u, tail)
  {
    AloneAgain(u, item, tail);
    ConsEqual(item, item, Collapse(u, tail), tail);
  }

  /** A run of several items in front. */
  lemma RunFixed(u: Unit, x: string, n: nat, rest: seq<string>)
    requires KeepsMarkers(u) && n > 0 && u.key(x) != ""
    requires rest != [] ==> u.key(rest[0]) != u.key(x)
    requires Fixed(u, Collapse(u, rest)) <==> Steady(u, rest)
    requires Fixed(u, [Repeated(u, n)] + Collapse(u, rest)) <==> SteadyAfter(u, n, rest) && Steady(u, rest)
    ensures Fixed(u, [x] + ([Repeated(u, n)] + Collapse(u, rest))) <==>
            (u.key(x) == Repeated(u, n) ==> n == 1) && SteadyAfter(u, n, rest) && Steady(u, rest)
  {
    if u.key(x) == Repeated(u, n) {
      OwnMarker(u, x, n, Collapse(u, rest));
    } else {
      AloneFixed(u, x, [Repeated(u, n)] + Collapse(u, rest));
    }
  }

  /** Collapsing a second time changes nothing. */
  predicate FixedCollapse(u: Unit, items: seq<string>) {
    Fixed(u, Collapse(u, items))
  }

  predicate FixedAfter(u: Unit, n: nat, items: seq<string>) {
    Fixed(u, [Repeated(u, n)] + Collapse(u, items))
  }

  lemma FirstAlone(u: Unit, items: seq<string>)
    requires items != [] && RunLen(u, items) == 1
    requires FixedCollapse(u, items[1..]) <==> Steady(u, items[1..])
    ensures FixedCollapse(u, items) <==> Steady(u, items)
  {
    CollapseParts(u, items);
    AloneFixed(u, items[0], Collapse(u, items[1..]));
  }

  lemma FirstRunFixed(u: Unit, items: seq<string>, r: nat)
    requires KeepsMarkers(u) && items != [] && r == RunLen(u, items) > 1
    requires FixedCollapse(u, items[r..]) <==> Steady(u, items[r..])
    requires FixedAfter(u, r - 1, items[r..]) <==> SteadyAfter(u, r - 1, items[r..]) && Steady(u, items[r..])
    ensures FixedCollapse(u, items) <==> Steady(u, items)
  {
    CollapseParts(u, items);
    RunFixed(u, items[0], r - 1, items[r..]);
  }

  lemma FixedEmpty(u: Unit)
    ensures FixedCollapse(u, []) && Steady(u, [])
  {
  }

  lemma {:induction false} FixedIff(u: Unit, items: seq<string>)
    requires KeepsMarkers(u)
    ensures FixedCollapse(u, items) <==> Steady(u, items)
    decreases |items|, 0
  {
    if items == [] {
      FixedEmpty(u);
    } else {
      var r := RunLen(u, items);
      FixedIff(u, items[r..]);
      if r == 1 {
        FirstAlone(u, items);
      } else {
        FixedAfterIff(u, r - 1, items[r..]);
        FirstRunFixed(u, items, r);
      }
    }
  }

  /** A run whose items look like its own marker. */
  lemma OwnMarker(u: Unit, x: string, n: nat, tail: seq<string>)
    requires KeepsMarkers(u) && n > 0 && u.key(x) == Repeated(u, n) && (tail != [] ==> u.key(tail[0]) != u.key(x))
    ensures Fixed(u, [x] + ([Repeated(u, n)] + tail)) <==> n == 1 && Fixed(u, tail)
  {
    var m := Repeated(u, n);
    PairAgain(u, x, m, tail);
    ConsEqual(x, x, [Repeated(u, 1)] + Collapse(u, tail), [m] + tail);
    ConsEqual(Repeated(u, 1), m, Collapse(u, tail), tail);
    if m == Repeated(u, 1) { RepeatedInjective(u, 1, n); }
  }

  lemma {:induction false} FixedAfterIff(u: Unit, n: nat, rest: seq<string>)
    requires KeepsMarkers(u) && n > 0
    ensures FixedAfter(u, n, rest) <==> SteadyAfter(u, n, rest) && Steady(u, rest)
    decreases |rest|, 1
  {
    var m, tail := Repeated(u, n), Collapse(u, rest);
    FixedIff(u, rest);
    if rest == [] || u.key(rest[0]) != m {
      AloneFixed(u, m, tail);
    } else {
      var s, y := RunLen(u, rest), rest[0];
      var rest2 := rest[s..];
      CollapseParts(u, rest);
      FixedIff(u, rest2);
      if s == 1 {
        PairFixed(u, m, y, Collapse(u, rest2));
      } else {
        FixedAfterIff(u, s - 1, rest2);
        MarkerPairFixed(u, n, y, s - 1, Collapse(u, rest2));
      }
    }
  }

  lemma PairFixed(u: Unit, m: string, y: string, tail: seq<string>)
    requires u.key(m) == u.key(y) != "" && (tail != [] ==> u.key(tail[0]) != u.key(m))
    ensures Fixed(u, [m] + ([y] + tail)) <==> y == Repeated(u, 1) && Fixed(u, tail)
  {
    PairAgain(u, m, y, tail);
    ConsEqual(m, m, [Repeated(u, 1)] + Collapse(u, tail), [y] + tail);
    ConsEqual(Repeated(u, 1), y, Collapse(u, tail), tail);
  }

  /** A marker, an item of its key, and that item's own marker. */
  lemma MarkerPairFixed(u: Unit, n: nat, y: string, k: nat, tail: seq<string>)
    requires KeepsMarkers(u) && n > 0 && k > 0 && u.key(y) == Repeated(u, n)
    requires tail != [] ==> u.key(tail[0]) != u.key(y)
    ensures Fixed(u, [Repeated(u, n)] + ([y] + ([Repeated(u, k)] + tail))) <==>
            y == Repeated(u, 1) && k != 1 && Fixed(u, [Repeated(u, k)] + tail)
  {
    var m := Repeated(u, n);
    if k == n {
      TripleShrinks(u, m, y, Repeated(u, k), tail);
      if y == Repeated(u, 1) { RepeatedInjective(u, 1, n); }
    } else {
      if m == Repeated(u, k) { RepeatedInjective(u, n, k); }
      PairFixed(u, m, y, [Repeated(u, k)] + tail);
      if y == Repeated(u, 1) { RepeatedInjective(u, 1, n); }
    }
  }

  lemma {:induction false} NoMarkerKeysSteady(u: Unit, items: seq<string>)
    requires NoMarkerKeys(u, items)
    ensures Steady(u, items)
    decreases |items|
  {
    if items != [] {
      var r := RunLen(u, items);
      NoMarkerKeysSteady(u, items[r..]);
      if r > 1 { ParseRepeatedExact(u, Repeated(u, r - 1), r - 1); }
    }
  }

  /** Collapsing twice is collapsing once, if and only if no run's marker will be taken for
      a repeated item; so it is when no key has marker form. */
  lemma CollapseIdempotentIff(u: Unit, items: seq<string>)
    requires KeepsMarkers(u)
    ensures Collapse(u, Collapse(u, items)) == Collapse(u, items) <==> Steady(u, items)
    ensures NoMarkerKeys(u, items) ==> Steady(u, items)
  {
    FixedIff(u, items);
    if NoMarkerKeys(u, items) { NoMarkerKeysSteady(u, items); }
  }

  /** Three equal items and then the marker that counts two: each pass changes the list. */
  lemma CollapseNotIdempotent(u: Unit, x: string)
    requires KeepsMarkers(u) && u.key(x) != "" && !IsMarker(u, u.key(x))
    ensures var items := [x] + [x] + [x] + [Repeated(u, 2)];
            Collapse(u, Collapse(u, items)) != Collapse(u, items)
  {
    var m, run := Repeated(u, 2), [x] + [x] + [x];
    var items := run + [m];
    ParseRepeatedExact(u, m, 2);
    MarkerKey(u, m);
    RunLenIs(u, items, 3);
    AppendDrop(run, [m]);
    FixedIff(u, items);
    if m == Repeated(u, 1) { RepeatedInjective(u, 1, 2); }
    assert !SteadyAfter(u, 2, [m]);
  }

  // ----- Blank runs in code -----

  /** What collapseBlankRuns keeps, when the line before was blank or not.
      A line is blank when its key is empty. */
  function CutBlanks(key: string -> string, lines: seq<string>, blank: bool): (out: seq<string>)
    ensures !blank && lines != [] ==> out != [] && out[0] == lines[0]
  {
    if lines == [] then []
    else if key(lines[0]) == "" then
      (if blank then [] else [lines[0]]) + CutBlanks(key, lines[1..], true)
    else [lines[0]] + CutBlanks(key, lines[1..], false)
  }

  lemma CutBlanksStep(key: string -> string, lines: seq<string>, i: nat, blank: bool, before: seq<string>)
    requires i < |lines|
    ensures var isBlank := key(lines[i]) == "";
            before + CutBlanks(key, lines[i..], blank) ==
            (if isBlank && blank then before else before + [lines[i]]) + CutBlanks(key, lines[i + 1..], isBlank)
  {
    var isBlank := key(lines[i]) == "";
    var rest := CutBlanks(key, lines[i + 1..], isBlank);
    assert lines[i..][0] == lines[i] && lines[i..][1..] == lines[i + 1..];
    assert [] + rest == rest;
    Assoc(before, [lines[i]], rest);
  }

  method CollapseBlankRuns(lines: seq<string>) returns (collapsed: seq<string>)
    ensures collapsed == CutBlanks(TrimSpace, lines, false)
  {
    collapsed := [];
    var blank := false;
    ghost var goal := CutBlanks(TrimSpace, lines, false);
    for i := 0 to |lines|
      invariant collapsed + CutBlanks(TrimSpace, lines[i..], blank) == goal
    {
      var line := lines[i];
      CutBlanksStep(TrimSpace, lines, i, blank, collapsed);
      if TrimSpace(line) == "" {
        if blank { continue; }
        blank := true;
        collapsed := collapsed + [line];
        continue;
      }
      blank := false;
      collapsed := collapsed + [line];
    }
  }

  lemma {:induction false} CutBlanksRun(key: string -> string, run: seq<string>, rest: seq<string>, blank: bool)
    requires run != [] && forall i :: 0 <= i < |run| ==> key(run[i]) != ""
    ensures CutBlanks(key, run + rest, blank) == run + CutBlanks(key, rest, false)
    decreases |run|
  {
    var l := run + rest;
    assert l[0] == run[0] && l[1..] == run[1..] + rest;
    if |run| == 1 {
      assert run[1..] + rest == rest;
    } else {
      CutBlanksRun(key, run[1..], rest, false);
      assert run == [run[0]] + run[1..];
    }
  }

  /** Cutting blank runs and collapsing repeated lines commute. */
  lemma {:induction false} CutCommutes(u: Unit, lines: seq<string>, blank: bool)
    requires KeepsMarkers(u)
    ensures CutBlanks(u.key, Collapse(u, lines), blank) == Collapse(u, CutBlanks(u.key, lines, blank))
    decreases |lines|
  {
    if lines == [] {
    } else if u.key(lines[0]) == "" {
      CutCommutes(u, lines[1..], true);
      CutBlankFirst(u, lines, blank);
    } else {
      var r := RunLen(u, lines);
      CutCommutes(u, lines[r..], false);
      CutAfterCollapse(u, lines, blank);
      CollapseAfterCut(u, lines, blank);
    }
  }

  /** The case of a blank first line. */
  lemma CutBlankFirst(u: Unit, lines: seq<string>, blank: bool)
    requires lines != [] && u.key(lines[0]) == ""
    requires CutBlanks(u.key, Collapse(u, lines[1..]), true) == Collapse(u, CutBlanks(u.key, lines[1..], true))
    ensures CutBlanks(u.key, Collapse(u, lines), blank) == Collapse(u, CutBlanks(u.key, lines, blank))
  {
    var rest, cut := Collapse(u, lines[1..]), CutBlanks(u.key, lines[1..], true);
    assert Collapse(u, lines) == [lines[0]] + rest;
    ConsDrop(lines[0], rest);
    if blank {
      assert [] + CutBlanks(u.key, rest, true) == CutBlanks(u.key, rest, true) && [] + cut == cut;
    } else {
      RunLenIs(u, [lines[0]] + cut, 1);
      ConsDrop(lines[0], cut);
    }
  }

  lemma CutAfterCollapse(u: Unit, lines: seq<string>, blank: bool)
    requires KeepsMarkers(u) && lines != [] && u.key(lines[0]) != ""
    ensures var r := RunLen(u, lines);
            CutBlanks(u.key, Collapse(u, lines), blank) ==
            Run(u, lines[0], r) + CutBlanks(u.key, Collapse(u, lines[r..]), false)
  {
    var r := RunLen(u, lines);
    CutBlanksRun(u.key, Run(u, lines[0], r), Collapse(u, lines[r..]), blank);
  }

  lemma CollapseAfterCut(u: Unit, lines: seq<string>, blank: bool)
    requires lines != [] && u.key(lines[0]) != ""
    ensures var r := RunLen(u, lines);
            Collapse(u, CutBlanks(u.key, lines, blank)) ==
            Run(u, lines[0], r) + Collapse(u, CutBlanks(u.key, lines[r..], false))
  {
    var r := RunLen(u, lines);
    var run, rest := lines[..r], lines[r..];
    assert lines == run + rest;
    CutBlanksRun(u.key, run, rest, blank);
    CollapseFirstRun(u, run, CutBlanks(u.key, rest, false));
  }

  lemma {:induction false} CutBlanksSubset(key: string -> string, lines: seq<string>, blank: bool)
    ensures forall x :: x in CutBlanks(key, lines, blank) ==> x in lines
  {
    if lines != [] {
      CutBlanksSubset(key, lines[1..], true);
      CutBlanksSubset(key, lines[1..], false);
    }
  }

  /** The lines that are not blank, do not follow a blank line, or come first. */
  function WithoutBlankRuns(lines: seq<string>): seq<string> {
    if lines == [] then []
    else
      var n := |lines| - 1;
      WithoutBlankRuns(lines[..n])
      + if n == 0 || Visible(lines[n]) || Visible(lines[n - 1]) then [lines[n]] else []
  }

  lemma {:induction false} CutBlanksSnoc(lines: seq<string>, line: string, blank: bool)
    ensures var after := if lines == [] then blank else TrimSpace(lines[|lines| - 1]) == "";
            CutBlanks(TrimSpace, lines + [line], blank) ==
            CutBlanks(TrimSpace, lines, blank) + if TrimSpace(line) != "" || !after then [line] else []
    decreases |lines|
  {
    if lines == [] {
      assert lines + [line] == [line] && [line][1..] == [];
      assert [line] + [] == [line] == [] + [line];
    } else {
      var own := if TrimSpace(lines[0]) == "" && blank then [] else [lines[0]];
      assert (lines + [line])[0] == lines[0] && (lines + [line])[1..] == lines[1..] + [line];
      CutBlanksSnoc(lines[1..], line, TrimSpace(lines[0]) == "");
      var after := if |lines| == 1 then TrimSpace(lines[0]) == "" else TrimSpace(lines[1..][|lines| - 2]) == "";
      Assoc(own, CutBlanks(TrimSpace, lines[1..], TrimSpace(lines[0]) == ""),
            if TrimSpace(line) != "" || !after then [line] else []);
    }
  }

  /** Cutting blank runs keeps exactly those. */
  lemma {:induction false} CutBlanksIs(lines: seq<string>)
    ensures CutBlanks(TrimSpace, lines, false) == WithoutBlankRuns(lines)
    decreases |lines|
  {
    if lines != [] {
      var n := |lines| - 1;
      assert lines == lines[..n] + [lines[n]];
      CutBlanksIs(lines[..n]);
      CutBlanksSnoc(lines[..n], lines[n], false);
      VisibleIff(lines[n]);
      if n > 0 { VisibleIff(lines[n - 1]); }
    }
  }

  /** Cutting blank runs twice is cutting them once. */
  lemma {:induction false} CutBlanksTwice(key: string -> string, lines: seq<string>, blank: bool)
    ensures CutBlanks(key, CutBlanks(key, lines, blank), blank) == CutBlanks(key, lines, blank)
  {
    if lines != [] {
      var isBlank := key(lines[0]) == "";
      var rest := CutBlanks(key, lines[1..], isBlank);
      CutBlanksTwice(key, lines[1..], isBlank);
      ConsDrop(lines[0], rest);
      assert [] + rest == rest;
    }
  }

  lemma CutBlanksClean(key: string -> string, lines: seq<string>)
    requires Clean(lines, "\n")
    ensures Clean(CutBlanks(key, lines, false), "\n")
  {
    var out := CutBlanks(key, lines, false);
    CutBlanksSubset(key, lines, false);
    forall i | 0 <= i < |out| ensures CleanBefore(out[i], "\n") && Index(out[i], "\n") < 0 {
      assert out[i] in out;
      var k :| 0 <= k < |lines| && lines[k] == out[i];
      if k < |lines| - 1 { CleanBeforeIsFree(lines[k], "\n"); } else { FreeIsCleanBefore(lines[k], "\n"); }
    }
  }

  // ----- Whole texts -----

  /** The blank-insensitive form of a paragraph. */
  function NormalizeSpace(paragraph: string): string {
    Join(Fields(paragraph), " ")
  }

  const LogLines := Unit(TrimSpace, "identical log lines")
  const TextBlocks := Unit(NormalizeSpace, "identical text blocks")
  const CodeLines := Unit(TrimSpace, "identical code lines")

  function CompressBy(u: Unit, text: string, sep: string): string
    requires sep != []
  {
    Join(Collapse(u, Split(text, sep)), sep)
  }

  function CompressRepeatedLines(text: string): string {
    CompressBy(LogLines, text, "\n")
  }

  function CompressRepeatedParagraphs(text: string): string {
    CompressBy(TextBlocks, text, "\n\n")
  }

  /** The lines of a code text with blank runs cut. */
  function CodeCut(text: string): seq<string> {
    CutBlanks(TrimSpace, Split(text, "\n"), false)
  }

  function CompressCode(text: string): string {
    Join(CutBlanks(TrimSpace, Collapse(CodeLines, Split(text, "\n")), false), "\n")
  }

  /** Re-splitting the compressed text gives back exactly the collapsed list. */
  lemma CompressSplits(u: Unit, text: string, sep: string)
    requires '\n' !in u.noun && sep != [] && sep[0] == '\n'
    ensures Split(CompressBy(u, text, sep), sep) == Collapse(u, Split(text, sep))
  {
    JoinSplit(text, sep);
    CollapseClean(u, Split(text, sep), sep);
    SplitJoin(Collapse(u, Split(text, sep)), sep);
  }

  /** Compression is invertible exactly on readable texts: expanding the re-split output
      gives as many items as the input had, each with the same key. */
  lemma CompressRoundTripIff(u: Unit, text: string, sep: string)
    requires '\n' !in u.noun && sep != [] && sep[0] == '\n' && KeepsMarkers(u)
    ensures SameKeys(u, Expand(u, Split(CompressBy(u, text, sep), sep)), Split(text, sep))
       <==> Readable(u, Split(text, sep))
  {
    CompressSplits(u, text, sep);
    ExpandCollapseIff(u, Split(text, sep));
  }

  lemma CompressIdempotentIff(u: Unit, text: string, sep: string)
    requires '\n' !in u.noun && sep != [] && sep[0] == '\n' && KeepsMarkers(u)
    ensures CompressBy(u, CompressBy(u, text, sep), sep) == CompressBy(u, text, sep) <==> Steady(u, Split(text, sep))
    ensures NoMarkerKeys(u, Split(text, sep)) ==> Steady(u, Split(text, sep))
  {
    CompressSplits(u, text, sep);
    CompressSplits(u, CompressBy(u, text, sep), sep);
    CollapseIdempotentIff(u, Split(text, sep));
  }

  /** As many lines, each equal up to surrounding white space. */
  predicate SameTrimmed(a: seq<string>, b: seq<string>) {
    |a| == |b| && forall i :: 0 <= i < |a| ==> TrimSpace(a[i]) == TrimSpace(b[i])
  }

  /** As many paragraphs, each with the same words. */
  predicate SameWords(a: seq<string>, b: seq<string>) {
    |a| == |b| && forall i :: 0 <= i < |a| ==> Join(Fields(a[i]), " ") == Join(Fields(b[i]), " ")
  }

  /** The markers of the three compressors. */
  lemma LogMarker(n: nat)
    ensures Repeated(LogLines, n) == "[repeated " + Dec(n) + " identical log lines omitted]"
  {
    assert Closing(LogLines) == " identical log lines omitted]";
  }

  lemma TextMarker(n: nat)
    ensures Repeated(TextBlocks, n) == "[repeated " + Dec(n) + " identical text blocks omitted]"
  {
    assert Closing(TextBlocks) == " identical text blocks omitted]";
  }

  lemma CodeMarker(n: nat)
    ensures Repeated(CodeLines, n) == "[repeated " + Dec(n) + " identical code lines omitted]"
  {
    assert Closing(CodeLines) == " identical code lines omitted]";
  }

  /** Log compression loses nothing but white space around lines, if and only if no line
      will be taken for a marker; it is so when no line is one. */
  lemma LogRoundTrip(text: string)
    ensures var lines, back := Split(text, "\n"), Expand(LogLines, Split(CompressRepeatedLines(text), "\n"));
            && (SameTrimmed(back, lines) <==> Readable(LogLines, lines))
            && (NoMarkers(LogLines, lines) ==> SameTrimmed(back, lines))
  {
    assert '\n' !in LogLines.noun;
    TrimKeepsMarkers(LogLines);
    CompressRoundTripIff(LogLines, text, "\n");
    if NoMarkers(LogLines, Split(text, "\n")) { NoMarkersReadable(LogLines, Split(text, "\n")); }
  }

  /** Paragraph compression: the output re-splits into the collapsed list, and expanding
      it gives back every paragraph up to white space, if and only if no paragraph will be
      taken for a marker. */
  lemma ParagraphRoundTrip(text: string)
    ensures var paragraphs, out := Split(text, "\n\n"), Split(CompressRepeatedParagraphs(text), "\n\n");
            var back := Expand(TextBlocks, out);
            && out == Collapse(TextBlocks, paragraphs)
            && (SameWords(back, paragraphs) <==> Readable(TextBlocks, paragraphs))
            && (NoMarkers(TextBlocks, paragraphs) ==> SameWords(back, paragraphs))
  {
    assert '\n' !in TextBlocks.noun;
    NormalizeKeepsMarkers();
    CompressSplits(TextBlocks, text, "\n\n");
    CompressRoundTripIff(TextBlocks, text, "\n\n");
    if NoMarkers(TextBlocks, Split(text, "\n\n")) { NoMarkersReadable(TextBlocks, Split(text, "\n\n")); }
  }

  /** Code compression is invertible up to the blank lines it cuts: every line left after
      cutting blank runs to their first line comes back in its place, if and only if none
      of them will be taken for a marker. */
  lemma CodeRoundTrip(text: string)
    ensures var lines := CodeCut(text);
            var back := Expand(CodeLines, Split(CompressCode(text), "\n"));
            && (SameTrimmed(back, lines) <==> Readable(CodeLines, lines))
            && (NoMarkers(CodeLines, Split(text, "\n")) ==> SameTrimmed(back, lines))
  {
    CompressCodeSplits(text);
    TrimKeepsMarkers(CodeLines);
    ExpandCollapseIff(CodeLines, CodeCut(text));
    if NoMarkers(CodeLines, Split(text, "\n")) { CutIsReadable(CodeLines, Split(text, "\n")); }
  }

  lemma CutIsReadable(u: Unit, lines: seq<string>)
    requires NoMarkers(u, lines)
    ensures Readable(u, CutBlanks(u.key, lines, false))
  {
    var cut := CutBlanks(u.key, lines, false);
    CutBlanksSubset(u.key, lines, false);
    assert forall i :: 0 <= i < |cut| ==> cut[i] in cut;
    NoMarkersReadable(u, cut);
  }

  lemma CompressCodeSplits(text: string)
    ensures Split(CompressCode(text), "\n") == Collapse(CodeLines, CodeCut(text))
  {
    var lines := Split(text, "\n");
    assert '\n' !in CodeLines.noun;
    JoinSplit(text, "\n");
    CollapseClean(CodeLines, lines, "\n");
    CutBlanksClean(TrimSpace, Collapse(CodeLines, lines));
    SplitJoin(CutBlanks(TrimSpace, Collapse(CodeLines, lines), false), "\n");
    TrimKeepsMarkers(CodeLines);
    CutCommutes(CodeLines, lines, false);
  }

  // ----- The keys leave markers alone -----

  lemma TrimKeepsMarkers(u: Unit)
    requires u.key == TrimSpace
    ensures KeepsMarkers(u)
  {
    forall n: nat ensures u.key(Repeated(u, n)) == Repeated(u, n) {
      var m := Repeated(u, n);
      assert m[0] == Opening[0] == '[';
      assert m[|m| - 1] == Closing(u)[|Closing(u)| - 1] == ']';
      TrimSpaceTight(m);
    }
  }

  lemma NormalizeWord(w: string, rest: string)
    requires w != [] && NoSpace(w) && Fields(rest) != [] && NormalizeSpace(rest) == rest
    ensures NormalizeSpace(w + " " + rest) == w + " " + rest && Fields(w + " " + rest) != []
  {
    FieldsCons(w, rest);
    ConsDrop(w, Fields(rest));
  }

  predicate Word(w: string) {
    w != [] && NoSpace(w)
  }

  lemma NormalizeSixWords(a: string, b: string, c: string, d: string, e: string, f: string)
    requires Word(a) && Word(b) && Word(c) && Word(d) && Word(e) && Word(f)
    ensures var s := a + " " + (b + " " + (c + " " + (d + " " + (e + " " + f)))); NormalizeSpace(s) == s
  {
    FieldsOne(f);
    NormalizeWord(e, f);
    NormalizeWord(d, e + " " + f);
    NormalizeWord(c, d + " " + (e + " " + f));
    NormalizeWord(b, c + " " + (d + " " + (e + " " + f)));
    NormalizeWord(a, b + " " + (c + " " + (d + " " + (e + " " + f))));
  }

  lemma MarkerWords(n: nat)
    ensures Repeated(TextBlocks, n)
         == "[repeated" + " " + (Dec(n) + " " + ("identical" + " " + ("text" + " " + ("blocks" + " " + "omitted]"))))
    ensures Word(Dec(n))
  {
    assert Closing(TextBlocks) == " " + ("identical" + " " + ("text" + " " + ("blocks" + " " + "omitted]")));
    assert Opening == "[repeated" + " ";
    assert forall i :: 0 <= i < |Dec(n)| ==> IsDigit(Dec(n)[i]);
  }

  lemma NormalizeKeepsMarkers()
    ensures KeepsMarkers(TextBlocks)
  {
    forall n: nat ensures TextBlocks.key(Repeated(TextBlocks, n)) == Repeated(TextBlocks, n) {
      MarkerWords(n);
      NormalizeSixWords("[repeated", Dec(n), "identical", "text", "blocks", "omitted]");
    }
  }

  /** Compressing a compressed log again changes nothing, if and only if no marker will be
      taken for a repeated line; so it is when no trimmed line is a marker. */
  lemma LogIdempotent(text: string)
    ensures CompressRepeatedLines(CompressRepeatedLines(text)) == CompressRepeatedLines(text)
       <==> Steady(LogLines, Split(text, "\n"))
    ensures NoMarkerKeys(LogLines, Split(text, "\n")) ==> Steady(LogLines, Split(text, "\n"))
  {
    assert '\n' !in LogLines.noun;
    TrimKeepsMarkers(LogLines);
    CompressIdempotentIff(LogLines, text, "\n");
  }

  /** The same for paragraphs. */
  lemma ParagraphIdempotent(text: string)
    ensures CompressRepeatedParagraphs(CompressRepeatedParagraphs(text)) == CompressRepeatedParagraphs(text)
       <==> Steady(TextBlocks, Split(text, "\n\n"))
    ensures NoMarkerKeys(TextBlocks, Split(text, "\n\n")) ==> Steady(TextBlocks, Split(text, "\n\n"))
  {
    assert '\n' !in TextBlocks.noun;
    NormalizeKeepsMarkers();
    CompressIdempotentIff(TextBlocks, text, "\n\n");
  }

  lemma CodeTwice(text: string)
    ensures Split(CompressCode(text), "\n") == Collapse(CodeLines, CodeCut(text))
    ensures Split(CompressCode(CompressCode(text)), "\n") == Collapse(CodeLines, Collapse(CodeLines, CodeCut(text)))
  {
    TrimKeepsMarkers(CodeLines);
    CompressCodeSplits(text);
    CompressCodeSplits(CompressCode(text));
    CutCommutes(CodeLines, CodeCut(text), false);
    CutBlanksTwice(TrimSpace, Split(text, "\n"), false);
  }

  lemma SplitsTell(a: string, b: string, sep: string)
    requires sep != []
    ensures a == b <==> Split(a, sep) == Split(b, sep)
  {
    JoinSplit(a, sep);
    JoinSplit(b, sep);
  }

  lemma CutKeepsKeys(u: Unit, lines: seq<string>)
    requires NoMarkerKeys(u, lines)
    ensures NoMarkerKeys(u, CutBlanks(u.key, lines, false))
  {
    var cut := CutBlanks(u.key, lines, false);
    CutBlanksSubset(u.key, lines, false);
    assert forall i :: 0 <= i < |cut| ==> cut[i] in cut;
  }

  /** The same for code, after its blank runs are cut. */
  lemma CodeIdempotent(text: string)
    ensures CompressCode(CompressCode(text)) == CompressCode(text) <==> Steady(CodeLines, CodeCut(text))
    ensures NoMarkerKeys(CodeLines, Split(text, "\n")) ==> Steady(CodeLines, CodeCut(text))
  {
    CodeTwice(text);
    SplitsTell(CompressCode(CompressCode(text)), CompressCode(text), "\n");
    TrimKeepsMarkers(CodeLines);
    CollapseIdempotentIff(CodeLines, CodeCut(text));
    if NoMarkerKeys(CodeLines, Split(text, "\n")) { CutKeepsKeys(CodeLines, Split(text, "\n")); }
  }
}
