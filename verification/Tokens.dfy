/**
 Token counting (internal/tokens/counter.go): exact counters registered per
 provider and model, and the estimator everything else falls back on. The
 estimator's order properties are what keeps untrusted compressors honest.
 */
module Tokens {
  import opened Outcome
  import opened Text

  datatype ProviderModel = ProviderModel(provider: string, model: string)

  datatype Count = Count(tokens: int, exact: bool, procedure: string)

  datatype Savings = Savings(original: Count, proposed: Count, delta: int, improved: bool)

  const NoCount := Count(0, false, "")
  const NoSavings := Savings(NoCount, NoCount, 0, false)
  const MethodEstimated := "estimated"

  /** An exact counter: any function of the text, which may fail. */
  type Counter = string -> Result<Count, string>

  /** unicode.IsPunct and unicode.IsSymbol, whatever they are. */
  datatype RuneClasses = RuneClasses(punct: char -> bool, symbol: char -> bool)

  predicate IsMark(rc: RuneClasses, c: char) {
    rc.punct(c) || rc.symbol(c)
  }

  predicate IsDelimiter(rc: RuneClasses, c: char) {
    IsSpace(c) || IsMark(rc, c)
  }

  // ----- The estimator -----

  /** Number of words that start in t, given whether a word is already under way. */
  function WordStarts(rc: RuneClasses, t: string, inWord: bool): nat {
    if t == [] then 0
    else if IsDelimiter(rc, t[0]) then WordStarts(rc, t[1..], false)
    else (if inWord then 0 else 1) + WordStarts(rc, t[1..], true)
  }

  /** countWords: the number of fields between delimiters. */
  function Words(rc: RuneClasses, t: string): nat {
    WordStarts(rc, t, false)
  }

  function NonSpaces(t: string): nat {
    if t == [] then 0 else NonSpaces(t[..|t| - 1]) + (if IsSpace(t[|t| - 1]) then 0 else 1)
  }

  function Marks(rc: RuneClasses, t: string): nat {
    if t == [] then 0 else Marks(rc, t[..|t| - 1]) + (if IsMark(rc, t[|t| - 1]) then 1 else 0)
  }

  function Max(a: int, b: int): int {
    if a >= b then a else b
  }

  /** ceil(n / d) for a positive divisor. */
  function CeilDiv(n: nat, d: nat): nat
    requires d > 0
  {
    (n + d - 1) / d
  }

  /** The largest of the three estimates: by words, by visible characters, by length. */
  function Combine(byWords: nat, visible: nat, length: nat): int {
    Max(Max(byWords, CeilDiv(visible, 4)), CeilDiv(length, 8))
  }

  function EstimateTokens(rc: RuneClasses, t: string): int {
    if t == "" then 0
    else Combine(ByWords(rc, t), NonSpaces(t), |t|)
  }

  method CountNonSpace(text: string) returns (count: nat)
    ensures count == NonSpaces(text)
  {
    count := 0;
    for i := 0 to |text|
      invariant count == NonSpaces(text[..i])
    {
      assert text[..i + 1][..i] == text[..i];
      if !IsSpace(text[i]) { count := count + 1; }
    }
    assert text[..|text|] == text;
  }

  method CountPunctuation(rc: RuneClasses, text: string) returns (count: nat)
    ensures count == Marks(rc, text)
  {
    count := 0;
    for i := 0 to |text|
      invariant count == Marks(rc, text[..i])
    {
      assert text[..i + 1][..i] == text[..i];
      if rc.punct(text[i]) || rc.symbol(text[i]) { count := count + 1; }
    }
    assert text[..|text|] == text;
  }

  method Estimate(rc: RuneClasses, text: string) returns (count: Count)
    ensures count == Count(EstimateTokens(rc, text), false, MethodEstimated)
  {
    if text == "" {
      return Count(0, false, MethodEstimated);
    }
    var nonSpace := CountNonSpace(text);
    var punctuation := CountPunctuation(rc, text);
    var tokens := Max(Words(rc, text) + punctuation, CeilDiv(nonSpace, 4));
    tokens := Max(tokens, CeilDiv(|text|, 8));
    count := Count(tokens, false, MethodEstimated);
  }

  // ----- Deleting characters -----

  /** a is what is left of b after deleting some characters. */
  predicate Subsequence(a: string, b: string) {
    || a == []
    || (b != [] && ((a[0] == b[0] && Subsequence(a[1..], b[1..])) || Subsequence(a, b[1..])))
  }

  lemma WordStartsFlag(rc: RuneClasses, t: string)
    ensures WordStarts(rc, t, true) <= WordStarts(rc, t, false) <= WordStarts(rc, t, true) + 1
  {
  }

  lemma {:induction false} WordsShrink(rc: RuneClasses, a: string, b: string, inWord: bool)
    requires Subsequence(a, b)
    ensures WordStarts(rc, a, inWord) <= WordStarts(rc, b, inWord)
    decreases |b|
  {
    if a != [] {
      if a[0] == b[0] && Subsequence(a[1..], b[1..]) {
        WordsShrink(rc, a[1..], b[1..], !IsDelimiter(rc, a[0]));
      } else {
        WordsShrink(rc, a, b[1..], !IsDelimiter(rc, b[0]));
        WordStartsFlag(rc, a);
      }
    }
  }

  lemma {:induction false} MarksConcat(rc: RuneClasses, a: string, b: string)
    ensures Marks(rc, a + b) == Marks(rc, a) + Marks(rc, b)
    ensures NonSpaces(a + b) == NonSpaces(a) + NonSpaces(b)
    decreases |b|
  {
    if b == [] {
      assert a + b == a;
    } else {
      assert (a + b)[..|a + b| - 1] == a + b[..|b| - 1];
      MarksConcat(rc, a, b[..|b| - 1]);
    }
  }

  lemma MarksCons(rc: RuneClasses, t: string)
    requires t != []
    ensures Marks(rc, t) == (if IsMark(rc, t[0]) then 1 else 0) + Marks(rc, t[1..])
    ensures NonSpaces(t) == (if IsSpace(t[0]) then 0 else 1) + NonSpaces(t[1..])
  {
    MarksConcat(rc, [t[0]], t[1..]);
    assert t == [t[0]] + t[1..];
    assert [t[0]][..0] == [];
  }

  lemma {:induction false} CountsShrink(rc: RuneClasses, a: string, b: string)
    requires Subsequence(a, b)
    ensures Marks(rc, a) <= Marks(rc, b) && NonSpaces(a) <= NonSpaces(b) && |a| <= |b|
    decreases |b|
  {
    if a != [] {
      MarksCons(rc, b);
      if a[0] == b[0] && Subsequence(a[1..], b[1..]) {
        MarksCons(rc, a);
        CountsShrink(rc, a[1..], b[1..]);
      } else {
        CountsShrink(rc, a, b[1..]);
      }
    }
  }

  /** Deleting characters, any of them, never raises the estimate. */
  lemma EstimateShrinks(rc: RuneClasses, a: string, b: string)
    requires Subsequence(a, b)
    ensures EstimateTokens(rc, a) <= EstimateTokens(rc, b)
  {
    WordsShrink(rc, a, b, false);
    CountsShrink(rc, a, b);
  }

  lemma {:induction false} WordsConcat(rc: RuneClasses, a: string, b: string, inWord: bool)
    ensures WordStarts(rc, a + b, inWord) <= WordStarts(rc, a, inWord) + WordStarts(rc, b, false)
    decreases |a|
  {
    if a == [] {
      assert a + b == b;
      WordStartsFlag(rc, b);
    } else {
      assert (a + b)[1..] == a[1..] + b && (a + b)[0] == a[0];
      WordsConcat(rc, a[1..], b, !IsDelimiter(rc, a[0]));
    }
  }

  lemma CombineAdd(w: nat, w1: nat, w2: nat, n1: nat, n2: nat, l1: nat, l2: nat)
    requires w <= w1 + w2
    ensures Combine(w, n1 + n2, l1 + l2) <= Combine(w1, n1, l1) + Combine(w2, n2, l2)
  {
    assert CeilDiv(n1 + n2, 4) <= CeilDiv(n1, 4) + CeilDiv(n2, 4);
    assert CeilDiv(l1 + l2, 8) <= CeilDiv(l1, 8) + CeilDiv(l2, 8);
  }

  /** Splitting a text never lowers the total estimate. */
  lemma EstimateSubadditive(rc: RuneClasses, a: string, b: string)
    ensures EstimateTokens(rc, a + b) <= EstimateTokens(rc, a) + EstimateTokens(rc, b)
  {
    if a == "" {
      assert a + b == b;
    } else if b == "" {
      assert a + b == a;
    } else {
      CombineConcat(rc, a, b);
    }
  }

  /** The estimate by words alone. */
  function ByWords(rc: RuneClasses, t: string): nat {
    Words(rc, t) + Marks(rc, t)
  }

  lemma ByWordsConcat(rc: RuneClasses, a: string, b: string)
    ensures ByWords(rc, a + b) <= ByWords(rc, a) + ByWords(rc, b)
    ensures NonSpaces(a + b) == NonSpaces(a) + NonSpaces(b)
  {
    WordsConcat(rc, a, b, false);
    MarksConcat(rc, a, b);
  }

  lemma CombineConcat(rc: RuneClasses, a: string, b: string)
    ensures Combine(ByWords(rc, a + b), NonSpaces(a + b), |a + b|) <=
            Combine(ByWords(rc, a), NonSpaces(a), |a|) + Combine(ByWords(rc, b), NonSpaces(b), |b|)
  {
    ByWordsConcat(rc, a, b);
    CombineAdd(ByWords(rc, a + b), ByWords(rc, a), ByWords(rc, b), NonSpaces(a), NonSpaces(b), |a|, |b|);
  }

  lemma {:induction false} WordsAndMarksFit(rc: RuneClasses, t: string, inWord: bool)
    ensures WordStarts(rc, t, inWord) + Marks(rc, t) <= |t| && NonSpaces(t) <= |t|
    decreases |t|
  {
    if t != [] {
      MarksCons(rc, t);
      WordsAndMarksFit(rc, t[1..], !IsDelimiter(rc, t[0]));
    }
  }

  /** The estimate never exceeds the number of characters, and only the empty text
      is free. */
  lemma EstimateBounds(rc: RuneClasses, t: string)
    ensures 0 <= EstimateTokens(rc, t) <= |t|
    ensures EstimateTokens(rc, t) == 0 <==> t == ""
  {
    WordsAndMarksFit(rc, t, false);
  }

  // ----- The estimate, written out -----

  predicate Delimits(rc: RuneClasses, c: char) {
    IsSpace(c) || rc.punct(c) || rc.symbol(c)
  }

  /** A word starts at position i. */
  predicate WordAt(rc: RuneClasses, t: string, i: nat)
    requires i < |t|
  {
    !Delimits(rc, t[i]) && (i == 0 || Delimits(rc, t[i - 1]))
  }

  lemma {:induction false} WordStartsSnoc(rc: RuneClasses, t: string, c: char, inWord: bool)
    ensures WordStarts(rc, t + [c], inWord) == WordStarts(rc, t, inWord)
            + if !Delimits(rc, c) && (if t == [] then !inWord else Delimits(rc, t[|t| - 1])) then 1 else 0
    decreases |t|
  {
    if t == [] {
      assert t + [c] == [c] && [c][1..] == [];
    } else {
      assert (t + [c])[0] == t[0] && (t + [c])[1..] == t[1..] + [c];
      WordStartsSnoc(rc, t[1..], c, !IsDelimiter(rc, t[0]));
    }
  }

  function WordSet(rc: RuneClasses, t: string): set<int> {
    set i | 0 <= i < |t| && WordAt(rc, t, i)
  }

  function MarkSet(rc: RuneClasses, t: string): set<int> {
    set i | 0 <= i < |t| && (rc.punct(t[i]) || rc.symbol(t[i]))
  }

  function VisibleSet(t: string): set<int> {
    set i | 0 <= i < |t| && !IsSpace(t[i])
  }

  lemma SetGrows(a: set<int>, b: set<int>, n: int, more: bool)
    requires a <= b <= a + {n} && n !in a && (n in b <==> more)
    ensures |b| == |a| + if more then 1 else 0
  {
    if more { assert b == a + {n}; } else { assert b == a; }
  }

  lemma WordSetSnoc(rc: RuneClasses, t: string, c: char)
    ensures |WordSet(rc, t + [c])| == |WordSet(rc, t)| + if WordAt(rc, t + [c], |t|) then 1 else 0
  {
    assert forall i: nat :: i < |t| ==> (WordAt(rc, t + [c], i) <==> WordAt(rc, t, i));
    SetGrows(WordSet(rc, t), WordSet(rc, t + [c]), |t|, WordAt(rc, t + [c], |t|));
  }

  lemma MarkSetSnoc(rc: RuneClasses, t: string, c: char)
    ensures |MarkSet(rc, t + [c])| == |MarkSet(rc, t)| + if rc.punct(c) || rc.symbol(c) then 1 else 0
  {
    SetGrows(MarkSet(rc, t), MarkSet(rc, t + [c]), |t|, rc.punct(c) || rc.symbol(c));
  }

  lemma VisibleSetSnoc(t: string, c: char)
    ensures |VisibleSet(t + [c])| == |VisibleSet(t)| + if !IsSpace(c) then 1 else 0
  {
    SetGrows(VisibleSet(t), VisibleSet(t + [c]), |t|, !IsSpace(c));
  }

  lemma CountsSnoc(rc: RuneClasses, t: string, c: char)
    ensures Words(rc, t + [c]) == Words(rc, t) + if WordAt(rc, t + [c], |t|) then 1 else 0
    ensures Marks(rc, t + [c]) == Marks(rc, t) + if rc.punct(c) || rc.symbol(c) then 1 else 0
    ensures NonSpaces(t + [c]) == NonSpaces(t) + if !IsSpace(c) then 1 else 0
  {
    WordStartsSnoc(rc, t, c, false);
    assert (t + [c])[..|t|] == t;
  }

  /** The three counts are the numbers of words, marks and visible characters. */
  lemma {:induction false} CountsAre(rc: RuneClasses, t: string)
    ensures Words(rc, t) == |WordSet(rc, t)| && Marks(rc, t) == |MarkSet(rc, t)| && NonSpaces(t) == |VisibleSet(t)|
    decreases |t|
  {
    if t != [] {
      var front, c := t[..|t| - 1], t[|t| - 1];
      CountsAre(rc, front);
      assert t == front + [c];
      WordSetSnoc(rc, front, c);
      MarkSetSnoc(rc, front, c);
      VisibleSetSnoc(front, c);
      CountsSnoc(rc, front, c);
    }
  }

  /** The estimate covers the text: a token for every word and every mark, one for every
      four visible characters and one for every eight characters. */
  predicate Covers(rc: RuneClasses, t: string, n: int) {
    n >= |WordSet(rc, t)| + |MarkSet(rc, t)| && 4 * n >= |VisibleSet(t)| && 8 * n >= |t|
  }

  /** It is the least number that does. */
  lemma EstimateIsLeast(rc: RuneClasses, t: string)
    ensures Covers(rc, t, EstimateTokens(rc, t))
    ensures forall n :: Covers(rc, t, n) ==> EstimateTokens(rc, t) <= n
  {
    CountsAre(rc, t);
  }

  // ----- Counter sets -----

  /** Whether `exact` has a counter for the model decides how a text is counted. */
  function CountText(rc: RuneClasses, exact: map<ProviderModel, Counter>, pm: ProviderModel, text: string)
    : Result<Count, string>
  {
    if pm in exact then
      match exact[pm](text)
      case Err(e) => Err(e)
      case Ok(c) => Ok(Count(c.tokens, true, if c.procedure == "" then pm.provider + "/" + pm.model else c.procedure))
    else Ok(Count(EstimateTokens(rc, text), false, MethodEstimated))
  }

  /** The counting a pipeline works with: a counter set and a model, or any other. */
  function Counting(rc: RuneClasses, exact: map<ProviderModel, Counter>, pm: ProviderModel): Counter {
    text => CountText(rc, exact, pm, text)
  }

  function SavingsOf(count: Counter, original: string, proposed: string): Result<Savings, string> {
    match count(original)
    case Err(e) => Err(e)
    case Ok(o) =>
      match count(proposed)
      case Err(e) => Err(e)
      case Ok(p) => Ok(Savings(o, p, o.tokens - p.tokens, o.tokens - p.tokens > 0))
  }

  class CounterSet {
    var exact: map<ProviderModel, Counter>

    constructor ()
      ensures exact == map[]
    {
      exact := map[];
    }

    /** A nil counter registers nothing. */
    method RegisterExact(provider: string, model: string, counter: Option<Counter>)
      modifies this
      ensures exact == if counter.Some? then old(exact)[ProviderModel(provider, model) := counter.value] else old(exact)
    {
      if counter.None? { return; }
      exact := exact[ProviderModel(provider, model) := counter.value];
    }

    /** Count: the registered counter's answer, marked exact and named, or the estimate. */
    method CountTokens(rc: RuneClasses, pm: ProviderModel, text: string) returns (result: Result<Count, string>)
      ensures result == CountText(rc, exact, pm, text)
      ensures pm !in exact ==> result == Ok(Count(EstimateTokens(rc, text), false, "estimated"))
      ensures pm in exact && exact[pm](text).Err? ==> result == Err(exact[pm](text).error)
      ensures pm in exact && exact[pm](text).Ok? ==>
        && result.Ok? && result.value.tokens == exact[pm](text).value.tokens && result.value.exact
        && result.value.procedure == if exact[pm](text).value.procedure != "" then exact[pm](text).value.procedure
                                     else pm.provider + "/" + pm.model
    {
      if pm in exact {
        var counted := exact[pm](text);
        if counted.Err? {
          return Err(counted.error);
        }
        var count := counted.value.(exact := true);
        if count.procedure == "" {
          count := count.(procedure := pm.provider + "/" + pm.model);
        }
        return Ok(count);
      }
      var estimate := Estimate(rc, text);
      result := Ok(estimate);
    }

    /** Savings: improved exactly when the proposed text counts fewer tokens. */
    method MeasureSavings(rc: RuneClasses, pm: ProviderModel, original: string, proposed: string)
      returns (result: Result<Savings, string>)
      ensures result == SavingsOf(Counting(rc, exact, pm), original, proposed)
      ensures result.Ok? ==>
        && result.value.delta == result.value.original.tokens - result.value.proposed.tokens
        && (result.value.improved <==> result.value.proposed.tokens < result.value.original.tokens)
      ensures pm !in exact && Subsequence(original, proposed) ==> result.Ok? && !result.value.improved
    {
      var before := CountTokens(rc, pm, original);
      if before.Err? {
        return Err(before.error);
      }
      var after := CountTokens(rc, pm, proposed);
      if after.Err? {
        return Err(after.error);
      }
      var delta := before.value.tokens - after.value.tokens;
      if Subsequence(original, proposed) { EstimateShrinks(rc, original, proposed); }
      result := Ok(Savings(before.value, after.value, delta, delta > 0));
    }
  }

  /** Never fails and never goes below zero. */
  ghost predicate Reliable(count: Counter) {
    forall t :: count(t).Ok? && count(t).value.tokens >= 0
  }

  lemma EstimatorIsReliable(rc: RuneClasses, exact: map<ProviderModel, Counter>, pm: ProviderModel)
    requires pm !in exact
    ensures Reliable(Counting(rc, exact, pm))
  {
    forall t ensures CountText(rc, exact, pm, t).Ok? && CountText(rc, exact, pm, t).value.tokens >= 0 {
      EstimateBounds(rc, t);
    }
  }
}
