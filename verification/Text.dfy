/**
 The string library the Go sources call, over texts seen as sequences of Unicode
 code points: searching, splitting, joining, trimming and field splitting.
 Each definition comes with the laws the compressors, the marker codec and the
 configuration editor rely on.
 */
module Text {

  /** unicode.IsSpace: the code points with the White_Space property. */
  predicate IsSpace(c: char) {
    var n := c as int;
    || 9 <= n <= 13 || n == 0x20 || n == 0x85 || n == 0xA0 || n == 0x1680
    || 0x2000 <= n <= 0x200A || n == 0x2028 || n == 0x2029 || n == 0x202F
    || n == 0x205F || n == 0x3000
  }

  predicate NoSpace(s: string) {
    forall i :: 0 <= i < |s| ==> !IsSpace(s[i])
  }

  // ----- Sequences -----

  lemma Assoc<T>(a: seq<T>, b: seq<T>, c: seq<T>)
    ensures (a + b) + c == a + (b + c)
  {
  }

  lemma ConsDrop<T>(x: T, s: seq<T>)
    ensures ([x] + s)[0] == x && ([x] + s)[1..] == s
  {
  }

  lemma AppendDrop<T>(a: seq<T>, b: seq<T>)
    ensures (a + b)[..|a|] == a && (a + b)[|a|..] == b
  {
  }

  lemma CutTwice<T>(s: seq<T>, i: nat, j: nat)
    requires i <= j <= |s|
    ensures s == s[..i] + s[i..] == s[..i] + (s[i..j] + s[j..])
  {
  }

  // ----- Searching -----

  predicate Occurs(t: string, sep: string, k: int) {
    0 <= k && k + |sep| <= |t| && t[k..k + |sep|] == sep
  }

  /** The leftmost occurrence at or after `from`, or -1. */
  function Search(t: string, sep: string, from: nat): (k: int)
    requires from <= |t|
    ensures k == -1 || (from <= k && Occurs(t, sep, k))
    ensures forall j :: from <= j && (k < 0 || j < k) ==> !Occurs(t, sep, j)
    decreases |t| - from
  {
    if Occurs(t, sep, from) then from
    else if from == |t| then -1
    else Search(t, sep, from + 1)
  }

  /** strings.Index: the leftmost occurrence, or -1. */
  function Index(t: string, sep: string): (k: int)
    ensures k == -1 || Occurs(t, sep, k)
    ensures forall j :: (k < 0 || j < k) ==> !Occurs(t, sep, j)
  {
    Search(t, sep, 0)
  }

  lemma FirstAt(t: string, sep: string, k: nat)
    requires Occurs(t, sep, k) && forall j :: 0 <= j < k ==> !Occurs(t, sep, j)
    ensures Index(t, sep) == k
  {
  }

  /** Occurrences agree with the pattern character by character. */
  lemma OccursChar(t: string, sep: string, k: int, i: nat)
    requires i < |sep|
    ensures Occurs(t, sep, k) ==> t[k + i] == sep[i]
  {
    if Occurs(t, sep, k) {
      assert t[k..k + |sep|][i] == t[k + i];
    }
  }

  lemma OccursPrefix(head: string, rest: string, sep: string, j: int)
    requires j + |sep| <= |head|
    ensures Occurs(head + rest, sep, j) <==> Occurs(head, sep, j)
  {
    if 0 <= j {
      assert (head + rest)[j..j + |sep|] == head[j..j + |sep|];
    }
  }

  lemma OccursSuffix(head: string, rest: string, sep: string, j: int)
    requires j >= 0
    ensures Occurs(head + rest, sep, |head| + j) <==> Occurs(rest, sep, j)
  {
    if j + |sep| <= |rest| {
      var k := |head| + j;
      assert (head + rest)[k..k + |sep|] == rest[j..j + |sep|];
    }
  }

  predicate Contains(t: string, sep: string) {
    Index(t, sep) >= 0
  }

  // ----- Splitting and joining -----

  /** strings.Split with a non-empty separator. */
  function Split(t: string, sep: string): (parts: seq<string>)
    requires sep != []
    ensures |parts| > 0
    decreases |t|
  {
    var k := Index(t, sep);
    if k < 0 then [t] else [t[..k]] + Split(t[k + |sep|..], sep)
  }

  /** strings.Join. */
  function Join(parts: seq<string>, sep: string): string {
    if parts == [] then ""
    else if |parts| == 1 then parts[0]
    else parts[0] + sep + Join(parts[1..], sep)
  }

  /** Splitting on `sep` right after `part` finds no earlier separator. */
  predicate CleanBefore(part: string, sep: string) {
    Index(part + sep, sep) == |part|
  }

  /** The lists that survive Join followed by Split: no part hides a separator,
      alone or together with the separator that follows it. */
  predicate Clean(parts: seq<string>, sep: string) {
    && |parts| > 0
    && (forall i :: 0 <= i < |parts| - 1 ==> CleanBefore(parts[i], sep))
    && Index(parts[|parts| - 1], sep) < 0
  }

  /** Whether a part is clean before its separator does not depend on what follows. */
  lemma IndexAfterPart(part: string, sep: string, rest: string)
    ensures Index(part + sep + rest, sep) == |part| <==> CleanBefore(part, sep)
  {
    var head := part + sep;
    forall j | 0 <= j <= |part|
      ensures Occurs(head + rest, sep, j) <==> Occurs(head, sep, j)
    {
      OccursPrefix(head, rest, sep, j);
    }
    OccursSuffix(part, sep, sep, 0);
    assert Occurs(head, sep, |part|);
    assert Occurs(head + rest, sep, |part|);
  }

  lemma {:induction false} JoinSplit(t: string, sep: string)
    requires sep != []
    ensures Join(Split(t, sep), sep) == t
    ensures Clean(Split(t, sep), sep)
    decreases |t|
  {
    var k := Index(t, sep);
    if k >= 0 {
      var part, rest := t[..k], t[k + |sep|..];
      assert t == part + sep + rest;
      IndexAfterPart(part, sep, rest);
      JoinSplit(rest, sep);
      CleanCons(part, Split(rest, sep), sep);
    }
  }

  lemma CleanCons(part: string, parts: seq<string>, sep: string)
    requires |parts| > 0
    ensures Clean([part] + parts, sep) <==> CleanBefore(part, sep) && Clean(parts, sep)
    ensures Join([part] + parts, sep) == part + sep + Join(parts, sep)
  {
    var l := [part] + parts;
    assert l[1..] == parts && l[0] == part;
    if Clean(l, sep) {
      forall i | 0 <= i < |parts| - 1 ensures CleanBefore(parts[i], sep) {
        assert parts[i] == l[i + 1];
      }
    }
  }

  /** A clean part is split off on its own. */
  lemma SplitOff(part: string, sep: string, rest: string)
    requires sep != [] && CleanBefore(part, sep)
    ensures Split(part + sep + rest, sep) == [part] + Split(rest, sep)
  {
    IndexAfterPart(part, sep, rest);
    AppendDrop(part + sep, rest);
    var t := part + sep + rest;
    assert t[..|part|] == part;
  }

  lemma {:induction false} SplitJoin(parts: seq<string>, sep: string)
    requires sep != [] && Clean(parts, sep)
    ensures Split(Join(parts, sep), sep) == parts
  {
    if |parts| > 1 {
      var part, tail := parts[0], parts[1..];
      assert [part] + tail == parts;
      CleanCons(part, tail, sep);
      SplitJoin(tail, sep);
      SplitOff(part, sep, Join(tail, sep));
    }
  }

  /** A part without the separator's first character is clean wherever it stands. */
  lemma CleanPart(part: string, sep: string)
    requires sep != [] && sep[0] !in part
    ensures CleanBefore(part, sep) && Index(part, sep) < 0
  {
    OccursSuffix(part, sep, sep, 0);
    assert Occurs(part + sep, sep, |part|);
    forall j | 0 <= j < |part| ensures !Occurs(part + sep, sep, j) && !Occurs(part, sep, j) {
      OccursChar(part + sep, sep, j, 0);
      OccursChar(part, sep, j, 0);
      assert (part + sep)[j] == part[j] && part[j] in part;
    }
    FirstAt(part + sep, sep, |part|);
  }

  /** A part that is clean before a separator holds none itself. */
  lemma CleanBeforeIsFree(part: string, sep: string)
    requires sep != [] && CleanBefore(part, sep)
    ensures Index(part, sep) < 0
  {
    forall j ensures !Occurs(part, sep, j) {
      if j + |sep| <= |part| { OccursPrefix(part, sep, sep, j); }
    }
  }

  /** For a one-character separator, being free of it is enough. */
  lemma FreeIsCleanBefore(part: string, sep: string)
    requires |sep| == 1 && Index(part, sep) < 0
    ensures sep[0] !in part && CleanBefore(part, sep)
  {
    forall i | 0 <= i < |part| ensures part[i] != sep[0] {
      assert !Occurs(part, sep, i);
      assert part[i..i + 1] == [part[i]] && sep == [sep[0]];
    }
    CleanPart(part, sep);
  }

  // ----- Trimming -----

  /** What a trim removes: white space, or the cutset "\r\n". */
  datatype Cutset = Space | LineBreak

  predicate Cuts(cut: Cutset, c: char) {
    match cut
    case Space => IsSpace(c)
    case LineBreak => c == '\r' || c == '\n'
  }

  predicate AllCut(s: string, cut: Cutset) {
    forall i :: 0 <= i < |s| ==> Cuts(cut, s[i])
  }

  function TrimLeft(s: string, cut: Cutset): (r: string)
    ensures |r| <= |s|
    ensures r != [] ==> !Cuts(cut, r[0])
  {
    if s != [] && Cuts(cut, s[0]) then TrimLeft(s[1..], cut) else s
  }

  function TrimRight(s: string, cut: Cutset): (r: string)
    ensures |r| <= |s|
  {
    if s != [] && Cuts(cut, s[|s| - 1]) then TrimRight(s[..|s| - 1], cut) else s
  }

  /** strings.TrimSpace. */
  function TrimSpace(s: string): string {
    TrimRight(TrimLeft(s, Space), Space)
  }

  /** What a left trim takes away and what it leaves. */
  lemma {:induction false} TrimLeftSplits(s: string, cut: Cutset) returns (dropped: string)
    ensures s == dropped + TrimLeft(s, cut) && AllCut(dropped, cut)
  {
    if s != [] && Cuts(cut, s[0]) {
      dropped := TrimLeftSplits(s[1..], cut);
      dropped := [s[0]] + dropped;
    } else {
      dropped := [];
    }
  }

  lemma {:induction false} TrimRightSplits(s: string, cut: Cutset) returns (dropped: string)
    ensures s == TrimRight(s, cut) + dropped && AllCut(dropped, cut)
    ensures TrimRight(s, cut) != [] ==> !Cuts(cut, TrimRight(s, cut)[|TrimRight(s, cut)| - 1])
  {
    if s != [] && Cuts(cut, s[|s| - 1]) {
      dropped := TrimRightSplits(s[..|s| - 1], cut);
      dropped := dropped + [s[|s| - 1]];
    } else {
      dropped := [];
    }
  }

  /** The trims are determined by what they leave and what they take away. */
  lemma {:induction false} TrimRightIs(r: string, dropped: string, cut: Cutset)
    requires AllCut(dropped, cut) && (r != [] ==> !Cuts(cut, r[|r| - 1]))
    ensures TrimRight(r + dropped, cut) == r
    decreases |dropped|
  {
    if dropped == [] {
      assert r + dropped == r;
    } else {
      var s, d := r + dropped, dropped[..|dropped| - 1];
      assert s[..|s| - 1] == r + d && s[|s| - 1] == dropped[|dropped| - 1];
      TrimRightIs(r, d, cut);
    }
  }

  lemma {:induction false} TrimLeftIs(dropped: string, r: string, cut: Cutset)
    requires AllCut(dropped, cut) && (r != [] ==> !Cuts(cut, r[0]))
    ensures TrimLeft(dropped + r, cut) == r
    decreases |dropped|
  {
    if dropped == [] {
      assert dropped + r == r;
    } else {
      var s := dropped + r;
      assert s[1..] == dropped[1..] + r && s[0] == dropped[0];
      TrimLeftIs(dropped[1..], r, cut);
    }
  }

  /** Surrounding white space never shows in a trimmed text. */
  lemma TrimSpacePad(a: string, s: string, b: string)
    requires AllCut(a, Space) && AllCut(b, Space)
    ensures TrimSpace(a + s + b) == TrimSpace(s)
  {
    var pre := TrimLeftSplits(s, Space);
    var l := TrimLeft(s, Space);
    assert a + s + b == (a + pre) + (l + b);
    AllCutConcat(a, pre, Space);
    if l == [] {
      AllCutConcat(a + pre, b, Space);
      TrimLeftIs(a + pre + b, [], Space);
      assert a + s + b == a + pre + b + [];
    } else {
      TrimLeftIs(a + pre, l + b, Space);
      TrimRightPad(l, b, Space);
    }
  }

  lemma AllCutConcat(a: string, b: string, cut: Cutset)
    ensures AllCut(a + b, cut) <==> AllCut(a, cut) && AllCut(b, cut)
  {
    if AllCut(a + b, cut) {
      assert forall i :: 0 <= i < |b| ==> b[i] == (a + b)[|a| + i];
      assert forall i :: 0 <= i < |a| ==> a[i] == (a + b)[i];
    }
  }

  lemma TrimRightPad(s: string, b: string, cut: Cutset)
    requires AllCut(b, cut)
    ensures TrimRight(s + b, cut) == TrimRight(s, cut)
  {
    var dropped := TrimRightSplits(s, cut);
    var m := TrimRight(s, cut);
    AllCutConcat(dropped, b, cut);
    TrimRightIs(m, dropped + b, cut);
    assert s + b == m + (dropped + b);
  }

  lemma TrimSpaceTight(s: string)
    requires s != [] ==> !IsSpace(s[0]) && !IsSpace(s[|s| - 1])
    ensures TrimSpace(s) == s
  {
    TrimLeftIs([], s, Space);
    TrimRightIs(s, [], Space);
    assert [] + s == s == s + [];
  }

  lemma TrimSpaceBlank(s: string)
    ensures TrimSpace(s) == [] <==> AllCut(s, Space)
  {
    var pre := TrimLeftSplits(s, Space);
    var post := TrimRightSplits(TrimLeft(s, Space), Space);
    if AllCut(s, Space) {
      TrimLeftIs(s, [], Space);
      assert s + [] == s;
    }
  }

  /** Some character is not white space. */
  predicate Visible(s: string) {
    exists i :: 0 <= i < |s| && !IsSpace(s[i])
  }

  lemma VisibleIff(s: string)
    ensures TrimSpace(s) != "" <==> Visible(s)
  {
    TrimSpaceBlank(s);
  }

  // ----- Fields -----

  /** Length of the leading run of non-space characters. */
  function WordLen(s: string): (n: nat)
    ensures n <= |s| && NoSpace(s[..n])
    ensures n < |s| ==> IsSpace(s[n])
  {
    if s == [] || IsSpace(s[0]) then 0
    else
      var n := 1 + WordLen(s[1..]);
      assert s[..n] == [s[0]] + s[1..][..n - 1];
      n
  }

  /** strings.Fields: the maximal runs of non-space characters. */
  function Fields(s: string): (fs: seq<string>)
    ensures forall i :: 0 <= i < |fs| ==> fs[i] != [] && NoSpace(fs[i])
    decreases |s|
  {
    var t := TrimLeft(s, Space);
    if t == [] then []
    else
      var n := WordLen(t);
      [t[..n]] + Fields(t[n..])
  }

  lemma {:induction false} WordLenIs(w: string, rest: string)
    requires NoSpace(w) && (rest != [] ==> IsSpace(rest[0]))
    ensures WordLen(w + rest) == |w|
  {
    if w == [] {
      assert w + rest == rest;
    } else {
      assert (w + rest)[1..] == w[1..] + rest;
      WordLenIs(w[1..], rest);
    }
  }

  lemma FieldsCons(w: string, rest: string)
    requires w != [] && NoSpace(w)
    ensures Fields(w + " " + rest) == [w] + Fields(rest)
  {
    var s := w + (" " + rest);
    assert w + " " + rest == s;
    assert s[0] == w[0];
    assert TrimLeft(s, Space) == s;
    WordLenIs(w, " " + rest);
    assert s[..|w|] == w && s[|w|..] == " " + rest;
    assert (" " + rest)[1..] == rest;
    assert TrimLeft(" " + rest, Space) == TrimLeft(rest, Space);
  }

  lemma FieldsOne(w: string)
    requires w != [] && NoSpace(w)
    ensures Fields(w) == [w]
  {
    assert w + [] == w;
    WordLenIs(w, []);
    assert w[..|w|] == w && w[|w|..] == [];
  }

  // ----- Decimal numbers -----

  predicate IsDigit(c: char) {
    '0' <= c <= '9'
  }

  predicate AllDigits(s: string) {
    forall i :: 0 <= i < |s| ==> IsDigit(s[i])
  }

  function Digit(d: nat): (c: char)
    requires d < 10
    ensures IsDigit(c) && c as int == 48 + d
  {
    (48 + d) as char
  }

  /** %d for a non-negative number. */
  function Dec(n: nat): (s: string)
    ensures s != [] && AllDigits(s)
  {
    if n < 10 then [Digit(n)] else Dec(n / 10) + [Digit(n % 10)]
  }

  /** The number a string of digits denotes. */
  function Val(s: string): (n: nat)
    requires AllDigits(s)
  {
    if s == [] then 0
    else Val(s[..|s| - 1]) * 10 + (s[|s| - 1] as int - 48)
  }

  lemma {:induction false} ValDec(n: nat)
    ensures Val(Dec(n)) == n
  {
    if n >= 10 {
      ValDec(n / 10);
      assert Dec(n)[..|Dec(n)| - 1] == Dec(n / 10);
    } else {
      assert Dec(n)[..0] == [];
    }
  }

  /** Printing a parsed number never takes more digits than it was given. */
  lemma {:induction false} DecValShorter(s: string)
    requires AllDigits(s) && s != []
    ensures |Dec(Val(s))| <= |s|
  {
    var t := s[..|s| - 1];
    if t == [] {
      assert Val(s) < 10;
    } else if Val(s) >= 10 {
      DecValShorter(t);
      assert Val(s) / 10 == Val(t);
    }
  }

  function Pow10(k: nat): (p: nat)
    ensures p > 0
  {
    if k == 0 then 1 else 10 * Pow10(k - 1)
  }

  lemma {:induction false} DecLength(n: nat, k: nat)
    requires 0 < k && n < Pow10(k)
    ensures |Dec(n)| <= k
  {
    if n >= 10 {
      assert Pow10(k) == 10 * Pow10(k - 1);
      DecLength(n / 10, k - 1);
    }
  }

  /** A printed number followed by a non-digit can be read back unambiguously. */
  lemma DecPrefixUnique(m: nat, n: nat, c: char, x: string, y: string)
    requires !IsDigit(c) && Dec(m) + [c] + x == Dec(n) + [c] + y
    ensures m == n && x == y
  {
    DigitsPrefixUnique(Dec(m), Dec(n), c, x, y);
    ValDec(m);
    ValDec(n);
  }

  lemma DigitsPrefixUnique(s: string, t: string, c: char, x: string, y: string)
    requires AllDigits(s) && AllDigits(t) && !IsDigit(c) && s + [c] + x == t + [c] + y
    ensures s == t && x == y
  {
    var u := s + [c] + x;
    assert u[|s|] == c && u[|t|] == c;
    assert forall i :: 0 <= i < |s| ==> u[i] == s[i];
    assert forall i :: 0 <= i < |t| ==> u[i] == t[i];
    assert s == u[..|s|] && t == u[..|t|];
    assert x == u[|s| + 1..] && y == u[|t| + 1..];
  }
}
