/** Korean money amounts: the additive parser (`parseKoreanAmount`), the tiered
    short formatter (`formatAmountShort`) and the D-day label (`formatDDay`). */
module Amount {
  import opened Wrappers
  import opened Text
  import opened Domain

  /** The magnitude suffixes in the order the parser tries them. */
  const Units: seq<(string, nat)> := [
    ("조", 1_000_000_000_000),
    ("억", 100_000_000),
    ("천만", 10_000_000),
    ("백만", 1_000_000),
    ("만", 10_000),
    ("천", 1_000)]

  /** The characters `Normalize` drops. */
  predicate Dropped(c: char) {
    IsSpace(c) || c == ','
  }

  /** How often `c` occurs in `s`. */
  function Occurrences(s: string, c: char): nat {
    if s == [] then 0 else (if s[0] == c then 1 else 0) + Occurrences(s[1..], c)
  }

  /** White space and commas are dropped before any matching; every other
      character is kept as often as it occurs (and, by `NormalizeAppend`, in
      order). */
  function Normalize(text: string): (r: string)
    ensures forall i :: 0 <= i < |r| ==> !Dropped(r[i])
    ensures forall c :: !Dropped(c) ==> Occurrences(r, c) == Occurrences(text, c)
    ensures |r| <= |text|
  {
    if text == [] then []
    else if Dropped(text[0]) then Normalize(text[1..])
    else [text[0]] + Normalize(text[1..])
  }

  /** Normalizing keeps the order of what it keeps: it distributes over
      concatenation. */
  lemma {:induction false} NormalizeAppend(a: string, b: string)
    ensures Normalize(a + b) == Normalize(a) + Normalize(b)
  {
    if a == [] {
      assert a + b == b;
    } else {
      var x, rest := a[0], a[1..];
      assert a + b == [x] + (rest + b);
      NormalizeAppend(rest, b);
      NormalizeCons(x, rest + b);
      NormalizeCons(x, rest);
      if !Dropped(x) {
        AppendAssoc([x], Normalize(rest), Normalize(b));
      }
    }
  }

  lemma AppendAssoc(p: string, q: string, r: string)
    ensures p + (q + r) == (p + q) + r
  {
  }

  /** One character in front: dropped, or kept ahead of the rest. */
  lemma NormalizeCons(x: char, s: string)
    ensures Normalize([x] + s) == (if Dropped(x) then [] else [x]) + Normalize(s)
  {
    assert ([x] + s)[0] == x && ([x] + s)[1..] == s;
  }

  /** Text without white space or commas is already normal. */
  lemma {:induction false} NormalizeKeeps(s: string)
    requires forall i :: 0 <= i < |s| ==> !Dropped(s[i])
    ensures Normalize(s) == s
  {
    if s != [] {
      NormalizeKeeps(s[1..]);
    }
  }

  /** Normalizing twice is normalizing once. */
  lemma NormalizeIdempotent(text: string)
    ensures Normalize(Normalize(text)) == Normalize(text)
  {
    NormalizeKeeps(Normalize(text));
  }

  /** A match of `(\d+(?:\.\d+)?)<suffix>` starting at `start` and `len` long,
      with integer digits `whole` and fraction digits `frac` (empty when absent). */
  datatype Term = Term(start: nat, whole: string, frac: string, len: nat)

  /** `t` describes the text of `s` it covers: the integer digits at `start`,
      then '.' and the fraction digits when there are any, then the suffix. */
  predicate Matched(s: string, suffix: string, t: Term) {
    && t.len == |t.whole| + (if t.frac == [] then 0 else 1 + |t.frac|) + |suffix|
    && t.start + t.len <= |s|
    && |t.whole| >= 1 && AllDigits(t.whole) && AllDigits(t.frac)
    && StartsAt(s, t.whole, t.start)
    && (t.frac != [] ==> s[t.start + |t.whole|] == '.' && StartsAt(s, t.frac, t.start + |t.whole| + 1))
    && StartsAt(s, suffix, t.start + t.len - |suffix|)
  }

  /** The length of the run of digits that starts at `i`. */
  function DigitRun(s: string, i: nat): (k: nat)
    requires i <= |s|
    ensures i + k <= |s|
    ensures forall j :: i <= j < i + k ==> IsDigit(s[j])
    ensures i + k == |s| || !IsDigit(s[i + k])
    decreases |s| - i
  {
    if i < |s| && IsDigit(s[i]) then 1 + DigitRun(s, i + 1) else 0
  }

  /** A suffix that starts with neither a digit nor '.', as every entry of
      `Units` does: the regular expression then has at most one match at a
      position, because neither digit run can stop early. */
  predicate PlainSuffix(suffix: string) {
    suffix != [] && !IsDigit(suffix[0]) && suffix[0] != '.'
  }

  /** The match of `(\d+(?:\.\d+)?)<suffix>` at position `i`, if there is one.
      `MatchAtComplete` shows that, for a plain suffix, every occurrence of the
      pattern at `i` is this match. */
  function MatchAt(s: string, suffix: string, i: nat): (m: Option<Term>)
    requires i <= |s|
    ensures m.Some? ==> m.value.start == i && Matched(s, suffix, m.value)
  {
    BuiltIsMatched(s, suffix, i);
    MatchAtBuild(s, suffix, i)
  }

  /** The regular expression has no other match at `i`: an occurrence of the
      pattern there is the match `MatchAt` reports. */
  lemma MatchAtComplete(s: string, suffix: string, t: Term)
    requires PlainSuffix(suffix) && Matched(s, suffix, t)
    ensures MatchAt(s, suffix, t.start) == Some(t)
  {
    TermIsBuilt(s, suffix, t);
  }

  /** The term at `i`, built from the two maximal digit runs. */
  function MatchAtBuild(s: string, suffix: string, i: nat): Option<Term>
    requires i <= |s|
  {
    var k := DigitRun(s, i);
    if k == 0 then None
    else
      var j := i + k;
      if j < |s| && s[j] == '.' then
        var f := DigitRun(s, j + 1);
        if f > 0 && StartsAt(s, suffix, j + 1 + f) then
          Some(Term(i, s[i..j], s[j + 1..j + 1 + f], k + 1 + f + |suffix|))
        else None
      else if StartsAt(s, suffix, j) then
        Some(Term(i, s[i..j], [], k + |suffix|))
      else None
  }

  /** What `MatchAtBuild` builds is a match at `i`. */
  lemma BuiltIsMatched(s: string, suffix: string, i: nat)
    requires i <= |s|
    ensures var m := MatchAtBuild(s, suffix, i); m.Some? ==> m.value.start == i && Matched(s, suffix, m.value)
  {
  }

  /** A run of `w` digits at `i` followed by a non-digit is the whole run. */
  lemma RunIsMaximal(s: string, i: nat, w: nat)
    requires i + w < |s| && !IsDigit(s[i + w])
    requires forall p :: i <= p < i + w ==> IsDigit(s[p])
    ensures DigitRun(s, i) == w
  {
  }

  /** The characters of a digit string found at `i` are digits. */
  lemma DigitsAt(s: string, d: string, i: nat)
    requires StartsAt(s, d, i) && AllDigits(d)
    ensures forall p :: i <= p < i + |d| ==> IsDigit(s[p])
  {
    forall p | i <= p < i + |d| ensures IsDigit(s[p]) {
      assert s[p] == s[i..i + |d|][p - i];
    }
  }

  /** A non-empty string found at `i` starts with its first character there. */
  lemma FirstAt(s: string, sub: string, i: nat)
    requires StartsAt(s, sub, i) && sub != []
    ensures s[i] == sub[0]
  {
    assert s[i..i + |sub|][0] == s[i];
  }

  /** The character after the integer digits of a match: '.' exactly when
      the match has a fraction, and never a digit. */
  lemma AfterWhole(s: string, suffix: string, t: Term)
    requires PlainSuffix(suffix) && Matched(s, suffix, t)
    ensures t.start + |t.whole| < |s| && !IsDigit(s[t.start + |t.whole|])
    ensures s[t.start + |t.whole|] == '.' <==> t.frac != []
  {
    if t.frac == [] {
      FirstAt(s, suffix, t.start + |t.whole|);
    }
  }

  /** The character after the fraction digits of a match is the suffix's first. */
  lemma AfterFrac(s: string, suffix: string, t: Term)
    requires PlainSuffix(suffix) && Matched(s, suffix, t) && t.frac != []
    ensures t.start + |t.whole| + 1 + |t.frac| < |s| && !IsDigit(s[t.start + |t.whole| + 1 + |t.frac|])
  {
    FirstAt(s, suffix, t.start + |t.whole| + 1 + |t.frac|);
  }

  /** A match of the pattern takes the integer digits whole. */
  lemma WholeIsRun(s: string, suffix: string, t: Term)
    requires PlainSuffix(suffix) && Matched(s, suffix, t)
    ensures |t.whole| == DigitRun(s, t.start)
  {
    AfterWhole(s, suffix, t);
    DigitsAt(s, t.whole, t.start);
    RunIsMaximal(s, t.start, |t.whole|);
  }

  /** A match with a fraction takes the fraction digits whole. */
  lemma FracIsRun(s: string, suffix: string, t: Term)
    requires PlainSuffix(suffix) && Matched(s, suffix, t) && t.frac != []
    ensures |t.frac| == DigitRun(s, t.start + |t.whole| + 1)
  {
    AfterFrac(s, suffix, t);
    DigitsAt(s, t.frac, t.start + |t.whole| + 1);
    RunIsMaximal(s, t.start + |t.whole| + 1, |t.frac|);
  }

  /** A match is the term `MatchAtBuild` builds at its start. */
  lemma TermIsBuilt(s: string, suffix: string, t: Term)
    requires PlainSuffix(suffix) && Matched(s, suffix, t)
    ensures MatchAtBuild(s, suffix, t.start) == Some(t)
  {
    var i, w := t.start, |t.whole|;
    AfterWhole(s, suffix, t);
    WholeIsRun(s, suffix, t);
    assert t.whole == s[i..i + w];
    if t.frac == [] {
      BuildsWhole(s, suffix, i, w);
      assert t == Term(i, s[i..i + w], [], w + |suffix|);
    } else {
      var g := |t.frac|;
      FracIsRun(s, suffix, t);
      assert t.frac == s[i + w + 1..i + w + 1 + g];
      BuildsFrac(s, suffix, i, w, g);
      assert t == Term(i, s[i..i + w], s[i + w + 1..i + w + 1 + g], w + 1 + g + |suffix|);
    }
  }

  /** `MatchAtBuild` with a maximal digit run followed by the suffix. */
  lemma BuildsWhole(s: string, suffix: string, i: nat, w: nat)
    requires i <= |s| && w >= 1 && w == DigitRun(s, i)
    requires i + w < |s| && s[i + w] != '.' && StartsAt(s, suffix, i + w)
    ensures MatchAtBuild(s, suffix, i) == Some(Term(i, s[i..i + w], [], w + |suffix|))
  {
  }

  /** `MatchAtBuild` with two maximal digit runs around '.', then the suffix. */
  lemma BuildsFrac(s: string, suffix: string, i: nat, w: nat, g: nat)
    requires i <= |s| && w >= 1 && w == DigitRun(s, i)
    requires i + w < |s| && s[i + w] == '.'
    requires g >= 1 && g == DigitRun(s, i + w + 1) && StartsAt(s, suffix, i + w + 1 + g)
    ensures MatchAtBuild(s, suffix, i) == Some(Term(i, s[i..i + w], s[i + w + 1..i + w + 1 + g], w + 1 + g + |suffix|))
  {
  }

  /** The leftmost match at or after `i` (`RegExp.prototype.exec`). */
  function FindFrom(s: string, suffix: string, i: nat): (m: Option<Term>)
    requires i <= |s|
    ensures m.Some? ==> i <= m.value.start <= |s| && MatchAt(s, suffix, m.value.start) == m
    ensures m.Some? ==> forall p :: i <= p < m.value.start ==> MatchAt(s, suffix, p).None?
    ensures m.None? ==> forall p :: i <= p <= |s| ==> MatchAt(s, suffix, p).None?
    decreases |s| - i
  {
    var here := MatchAt(s, suffix, i);
    if here.Some? || i == |s| then here else FindFrom(s, suffix, i + 1)
  }

  /** `pattern.exec(s)`: the leftmost match. */
  function Find(s: string, suffix: string): (m: Option<Term>)
    ensures m.Some? ==> Matched(s, suffix, m.value)
    ensures m.Some? ==> forall p :: 0 <= p < m.value.start ==> MatchAt(s, suffix, p).None?
    ensures m.None? ==> forall p :: 0 <= p <= |s| ==> MatchAt(s, suffix, p).None?
  {
    FindFrom(s, suffix, 0)
  }

  /** `exec` finds the leftmost occurrence of the pattern, and nothing only
      when the pattern does not occur at all. */
  lemma FindComplete(s: string, suffix: string, t: Term)
    requires PlainSuffix(suffix) && Matched(s, suffix, t)
    ensures Find(s, suffix).Some? && Find(s, suffix).value.start <= t.start
  {
    MatchAtComplete(s, suffix, t);
  }

  /** A match contains the first character of its suffix. */
  lemma FoundHasSuffix(s: string, suffix: string)
    requires suffix != []
    ensures Find(s, suffix).Some? ==> suffix[0] in s
  {
    var m := Find(s, suffix);
    if m.Some? {
      var at := m.value.start + m.value.len - |suffix|;
      assert s[at..at + |suffix|][0] == suffix[0];
      assert s[at] == suffix[0];
    }
  }

  /** Digits directly followed by the suffix are matched as a whole-number term. */
  lemma MatchesLeadingDigits(d: string, suffix: string, rest: string)
    requires |d| >= 1 && AllDigits(d)
    requires suffix != [] && !IsDigit(suffix[0]) && suffix[0] != '.'
    ensures Find(d + suffix + rest, suffix) == Some(Term(0, d, [], |d| + |suffix|))
  {
    var s := d + suffix + rest;
    assert s == d + (suffix + rest);
    assert s[|d|] == suffix[0];
    assert DigitRun(s, 0) == |d|;
    assert s[|d|..|d| + |suffix|] == suffix;
    assert s[0..|d|] == d;
  }

  /** The value of a term: the decimal coefficient times the magnitude, in whole won. */
  function TermValue(t: Term, magnitude: nat): (r: nat)
    requires AllDigits(t.whole) && AllDigits(t.frac)
    ensures AllDigits(t.whole + t.frac)
    ensures r * Pow10(|t.frac|) <= DigitsValue(t.whole + t.frac) * magnitude < (r + 1) * Pow10(|t.frac|)
    ensures t.frac == [] ==> r == DigitsValue(t.whole) * magnitude
  {
    AllDigitsAppend(t.whole, t.frac);
    var v := DigitsValue(t.whole + t.frac);
    MulMono(0, v, magnitude);
    assert t.frac == [] ==> t.whole + t.frac == t.whole;
    v * magnitude / Pow10(|t.frac|)
  }

  /** `remaining.replace(match[0], '')`: the leftmost match is cut out. */
  function Remove(s: string, t: Term): string
    requires t.start + t.len <= |s|
  {
    s[..t.start] + s[t.start + t.len..]
  }

  /** One match-and-consume step of the parser. */
  function Consume(total: nat, rest: string, suffix: string, magnitude: nat): (nat, string) {
    match Find(rest, suffix)
    case None => (total, rest)
    case Some(t) => (total + TermValue(t, magnitude), Remove(rest, t))
  }

  /** The suffix steps of the unit table from entry `i` on. */
  function ConsumeFrom(i: nat, total: nat, rest: string): (nat, string)
    requires i <= |Units|
    decreases |Units| - i
  {
    if i == |Units| then (total, rest)
    else
      var (t, r) := Consume(total, rest, Units[i].0, Units[i].1);
      ConsumeFrom(i + 1, t, r)
  }

  /** `j` is the first digit of `s` at or after `i`. */
  predicate FirstDigitAt(s: string, i: nat, j: nat) {
    i <= j < |s| && IsDigit(s[j]) && forall p :: i <= p < j ==> !IsDigit(s[p])
  }

  /** The first run of digits at or after `i` (`/(\d+)/.exec`). */
  function FirstNumberFrom(s: string, i: nat): (r: Option<string>)
    requires i <= |s|
    ensures r.Some? ==> |r.value| >= 1 && AllDigits(r.value)
    ensures r.Some? ==>
      exists j: nat :: FirstDigitAt(s, i, j) && r.value == s[j..j + DigitRun(s, j)]
    ensures r.None? ==> forall j :: i <= j < |s| ==> !IsDigit(s[j])
    decreases |s| - i
  {
    if i == |s| then None
    else if IsDigit(s[i]) then Some(s[i..i + DigitRun(s, i)])
    else FirstNumberFrom(s, i + 1)
  }

  /** The sum of the suffix terms plus the first leftover run of digits, in ones. */
  function Total(text: string): nat {
    var (t, rest) := ConsumeFrom(0, 0, Normalize(text));
    match FirstNumberFrom(rest, 0)
    case Some(d) => t + DigitsValue(d)
    case None => t
  }

  /** What `parseKoreanAmount` returns: the total, or nothing when it is zero. */
  function KoreanAmount(text: string): (r: Option<nat>)
    ensures r.None? <==> Total(text) == 0
    ensures r.Some? ==> r.value > 0 && r.value == Total(text)
  {
    if Total(text) > 0 then Some(Total(text)) else None
  }

  /** One suffix step of the table. */
  lemma ConsumeStep(i: nat, total: nat, rest: string)
    requires i < |Units|
    ensures ConsumeFrom(i, total, rest) ==
      ConsumeFrom(i + 1, Consume(total, rest, Units[i].0, Units[i].1).0, Consume(total, rest, Units[i].0, Units[i].1).1)
  {
  }

  /** One block of `parseKoreanAmount`: run the pattern on what remains; on a
      match add the term's value and cut the match out. */
  method MatchAndConsume(total: nat, remaining: string, suffix: string, magnitude: nat)
    returns (newTotal: nat, newRemaining: string)
    ensures (newTotal, newRemaining) == Consume(total, remaining, suffix, magnitude)
  {
    newTotal, newRemaining := total, remaining;
    var m := Find(remaining, suffix);
    if m.Some? {
      newTotal := total + TermValue(m.value, magnitude);
      newRemaining := Remove(remaining, m.value);
    }
  }

  /** `parseKoreanAmount`: each suffix pattern in turn adds its first match and
      cuts it out; the first remaining digits are added as ones. */
  method ParseKoreanAmount(text: string) returns (r: Option<nat>)
    ensures r == KoreanAmount(text)
  {
    var normalized := Normalize(text);
    var total: nat := 0;
    var remaining := normalized;
    ConsumeStep(0, total, remaining);
    total, remaining := MatchAndConsume(total, remaining, "조", 1_000_000_000_000);
    ConsumeStep(1, total, remaining);
    total, remaining := MatchAndConsume(total, remaining, "억", 100_000_000);
    ConsumeStep(2, total, remaining);
    total, remaining := MatchAndConsume(total, remaining, "천만", 10_000_000);
    ConsumeStep(3, total, remaining);
    total, remaining := MatchAndConsume(total, remaining, "백만", 1_000_000);
    ConsumeStep(4, total, remaining);
    total, remaining := MatchAndConsume(total, remaining, "만", 10_000);
    ConsumeStep(5, total, remaining);
    total, remaining := MatchAndConsume(total, remaining, "천", 1_000);

    var num := FirstNumberFrom(remaining, 0);
    if num.Some? {
      total := total + DigitsValue(num.value);
    }
    r := if total > 0 then Some(total) else None;
  }

  /** Stripping white space and commas first makes them irrelevant. */
  lemma IgnoresSpacesAndCommas(text: string)
    ensures KoreanAmount(text) == KoreanAmount(Normalize(text))
  {
    NormalizeIdempotent(text);
    assert Total(text) == Total(Normalize(text));
  }

  /** The amounts the short formatter writes as a whole number of its unit. */
  predicate WholeUnit(n: int) {
    || (n >= 100_000_000 && n % 100_000_000 == 0)
    || (10_000_000 <= n < 100_000_000 && n % 10_000_000 == 0)
    || (10_000 <= n < 10_000_000 && n % 10_000 == 0)
  }

  /** The tier of an amount of at least 10^4: its unit and the suffix written. */
  function UnitOf(n: int): (nat, string) {
    if n >= 100_000_000 then (100_000_000, "억")
    else if n >= 10_000_000 then (10_000_000, "천만원")
    else (10_000, "만원")
  }

  /** `formatAmountShort`: 억 from 10^8, 천만원 from 10^7, 만원 from 10^4, the
      full currency form below. A whole multiple of the unit is written as a
      plain number; otherwise the host's fixed-point rendering is used. */
  function FormatAmountShort(amount: int, host: Host): (r: string)
    ensures amount >= 100_000_000 ==> EndsWith(r, "억")
    ensures 10_000_000 <= amount < 100_000_000 ==> EndsWith(r, "천만원")
    ensures 10_000 <= amount < 10_000_000 ==> EndsWith(r, "만원")
    ensures amount < 10_000 ==> r == host.currency(amount)
    ensures WholeUnit(amount) ==> r == NatToString(amount / UnitOf(amount).0) + UnitOf(amount).1
    ensures amount >= 10_000 && !WholeUnit(amount) ==>
      r == host.fixed(amount, UnitOf(amount).0, if amount >= 10_000_000 then 1 else 0) + UnitOf(amount).1
  {
    if amount >= 100_000_000 then
      if amount % 100_000_000 == 0 then NatToString(amount / 100_000_000) + "억"
      else host.fixed(amount, 100_000_000, 1) + "억"
    else if amount >= 10_000_000 then
      if amount % 10_000_000 == 0 then NatToString(amount / 10_000_000) + "천만원"
      else host.fixed(amount, 10_000_000, 1) + "천만원"
    else if amount >= 10_000 then
      if amount % 10_000 == 0 then NatToString(amount / 10_000) + "만원"
      else host.fixed(amount, 10_000, 0) + "만원"
    else host.currency(amount)
  }

  /** Suffix steps whose suffixes do not occur change nothing. */
  lemma {:induction false} ConsumeFromSkips(i: nat, n: nat, total: nat, rest: string)
    requires i <= n <= |Units|
    requires forall j :: i <= j < n ==> Units[j].0[0] !in rest
    ensures ConsumeFrom(i, total, rest) == ConsumeFrom(n, total, rest)
    decreases n - i
  {
    if i < n {
      var suffix := Units[i].0;
      UnitSuffixes();
      FoundHasSuffix(rest, suffix);
      assert Consume(total, rest, suffix, Units[i].1) == (total, rest);
      ConsumeFromSkips(i + 1, n, total, rest);
    }
  }

  /** Every suffix starts with a Hangul syllable other than 원. */
  lemma UnitSuffixes()
    ensures forall j :: 0 <= j < |Units| ==>
      |Units[j].0| >= 1 && !IsDigit(Units[j].0[0]) && Units[j].0[0] != '.' && Units[j].0[0] != '원'
  {
  }

  /** The text the formatter writes for `k` units: digits, suffix and maybe "원". */
  function UnitText(k: nat, suffix: string, tail: string): string {
    NatToString(k) + suffix + tail
  }

  lemma UnitTextIsNormal(k: nat, idx: nat, tail: string)
    requires idx < |Units| && (tail == [] || tail == "원")
    ensures Normalize(UnitText(k, Units[idx].0, tail)) == UnitText(k, Units[idx].0, tail)
  {
    var d, suffix := NatToString(k), Units[idx].0;
    var s := UnitText(k, suffix, tail);
    forall i | 0 <= i < |s| ensures !Dropped(s[i]) {
      if i < |d| {
        assert IsDigit(d[i]);
      } else if i < |d| + |suffix| {
        assert s[i] == suffix[i - |d|];
      } else {
        assert s[i] == tail[i - |d| - |suffix|];
      }
    }
    NormalizeKeeps(s);
  }

  /** The entries before `idx` find nothing in a unit text of entry `idx`. */
  lemma SkipsBeforeUnit(k: nat, idx: nat, tail: string)
    requires idx < |Units| && (tail == [] || tail == "원")
    requires forall j :: 0 <= j < idx ==> Units[j].0[0] !in Units[idx].0
    ensures ConsumeFrom(0, 0, UnitText(k, Units[idx].0, tail)) == ConsumeFrom(idx, 0, UnitText(k, Units[idx].0, tail))
  {
    var suffix := Units[idx].0;
    var d := NatToString(k);
    var s := UnitText(k, suffix, tail);
    UnitSuffixes();
    forall j | 0 <= j < idx ensures Units[j].0[0] !in s {
      NonDigitNotIn(d, Units[j].0[0]);
      assert s == d + (suffix + tail);
    }
    ConsumeFromSkips(0, idx, 0, s);
  }

  /** Entry `idx` reads leading digits as its coefficient and leaves the rest. */
  lemma ConsumesLeadingTerm(total: nat, k: nat, idx: nat, rest: string)
    requires k >= 1 && idx < |Units|
    ensures Consume(total, NatToString(k) + Units[idx].0 + rest, Units[idx].0, Units[idx].1)
      == (total + k * Units[idx].1, rest)
  {
    var suffix := Units[idx].0;
    var d := NatToString(k);
    var s := d + suffix + rest;
    UnitSuffixes();
    MatchesLeadingDigits(d, suffix, rest);
    assert Remove(s, Term(0, d, [], |d| + |suffix|)) == rest;
    DigitsOfNat(k);
    assert d + [] == d;
  }

  /** Entry `idx` reads the leading digits as its coefficient and leaves the tail. */
  lemma ConsumesUnitTerm(k: nat, idx: nat, tail: string)
    requires k >= 1 && idx < |Units| && (tail == [] || tail == "원")
    ensures Consume(0, UnitText(k, Units[idx].0, tail), Units[idx].0, Units[idx].1) == (k * Units[idx].1, tail)
  {
    ConsumesLeadingTerm(0, k, idx, tail);
  }

  /** No entry finds anything in the tail. */
  lemma SkipsTail(total: nat, tail: string, i: nat)
    requires i <= |Units| && (tail == [] || tail == "원")
    ensures ConsumeFrom(i, total, tail) == (total, tail)
  {
    UnitSuffixes();
    ConsumeFromSkips(i, |Units|, total, tail);
  }

  /** The suffix steps read exactly the one term out of a unit text. */
  lemma ConsumesUnitText(k: nat, idx: nat, tail: string)
    requires k >= 1 && idx < |Units| && (tail == [] || tail == "원")
    requires forall j :: 0 <= j < idx ==> Units[j].0[0] !in Units[idx].0
    ensures ConsumeFrom(0, 0, UnitText(k, Units[idx].0, tail)) == (k * Units[idx].1, tail)
  {
    SkipsBeforeUnit(k, idx, tail);
    ConsumesFromUnit(k, idx, tail);
  }

  /** From entry `idx` on, the unit text yields its one term and the tail. */
  lemma ConsumesFromUnit(k: nat, idx: nat, tail: string)
    requires k >= 1 && idx < |Units| && (tail == [] || tail == "원")
    ensures ConsumeFrom(idx, 0, UnitText(k, Units[idx].0, tail)) == (k * Units[idx].1, tail)
  {
    ConsumesUnitTerm(k, idx, tail);
    ConsumeStep(idx, 0, UnitText(k, Units[idx].0, tail));
    SkipsTail(k * Units[idx].1, tail, idx + 1);
  }

  lemma NoNumberInTail(tail: string)
    requires tail == [] || tail == "원"
    ensures FirstNumberFrom(tail, 0) == None
  {
  }

  /** The total of a normal text whose suffix steps leave no digits behind. */
  lemma TotalFromSteps(s: string, v: nat, tail: string)
    requires Normalize(s) == s && ConsumeFrom(0, 0, s) == (v, tail) && FirstNumberFrom(tail, 0) == None
    ensures Total(s) == v
  {
  }

  /** Digits followed by the suffix of unit-table entry `idx` (and possibly
      "원") add up to the digits' value times that entry's magnitude. */
  lemma TotalOfUnitText(k: nat, idx: nat, tail: string)
    requires k >= 1 && idx < |Units| && (tail == [] || tail == "원")
    requires forall j :: 0 <= j < idx ==> Units[j].0[0] !in Units[idx].0
    ensures Total(UnitText(k, Units[idx].0, tail)) == k * Units[idx].1
  {
    UnitTextIsNormal(k, idx, tail);
    ConsumesUnitText(k, idx, tail);
    NoNumberInTail(tail);
    TotalFromSteps(UnitText(k, Units[idx].0, tail), k * Units[idx].1, tail);
  }

  /** "k억" reads back as k·10^8. */
  lemma ReadsEok(k: nat)
    requires k >= 1
    ensures KoreanAmount(NatToString(k) + "억") == Some(k * 100_000_000)
  {
    TotalOfUnitText(k, 1, []);
    assert UnitText(k, "억", []) == NatToString(k) + "억";
  }

  /** "k천만원" reads back as k·10^7. */
  lemma ReadsCheonman(k: nat)
    requires k >= 1
    ensures KoreanAmount(NatToString(k) + "천만원") == Some(k * 10_000_000)
  {
    TotalOfUnitText(k, 2, "원");
    assert UnitText(k, "천만", "원") == NatToString(k) + "천만원";
  }

  /** "k만원" reads back as k·10^4. */
  lemma ReadsMan(k: nat)
    requires k >= 1
    ensures KoreanAmount(NatToString(k) + "만원") == Some(k * 10_000)
  {
    TotalOfUnitText(k, 4, "원");
    assert UnitText(k, "만", "원") == NatToString(k) + "만원";
  }

  /** Round trip: a whole-unit amount written by the short formatter parses
      back to itself (k·10^8 as "k억", k·10^7 for k < 10 as "k천만원",
      k·10^4 for k < 1000 as "k만원"). */
  lemma RoundTrip(n: int, host: Host)
    requires WholeUnit(n)
    ensures KoreanAmount(FormatAmountShort(n, host)) == Some(n)
  {
    var s := FormatAmountShort(n, host);
    if n >= 100_000_000 {
      var k := n / 100_000_000;
      assert k * 100_000_000 == n;
      assert s == NatToString(k) + "억";
      ReadsEok(k);
    } else if n >= 10_000_000 {
      var k := n / 10_000_000;
      assert k * 10_000_000 == n;
      assert s == NatToString(k) + "천만원";
      ReadsCheonman(k);
    } else {
      var k := n / 10_000;
      assert k * 10_000 == n;
      assert s == NatToString(k) + "만원";
      ReadsMan(k);
    }
  }

  /** `formatDDay`: "D-Day" today, "D-n" before the date and "D+n" after it. */
  function FormatDDay(days: int): (r: string)
    ensures days > 0 ==> |r| > 2 && r[..2] == "D-" && r != "D-Day"
    ensures days < 0 ==> |r| > 2 && r[..2] == "D+"
  {
    if days == 0 then "D-Day"
    else if days > 0 then
      assert ("D-" + NatToString(days))[2] == NatToString(days)[0];
      "D-" + NatToString(days)
    else "D+" + NatToString(-days)
  }

  /** Reads a D-day label back into a signed day count. */
  function ParseDDay(s: string): Option<int> {
    if s == "D-Day" then Some(0)
    else if |s| > 2 && s[..2] == "D-" && AllDigits(s[2..]) then Some(DigitsValue(s[2..]) as int)
    else if |s| > 2 && s[..2] == "D+" && AllDigits(s[2..]) then Some(0 - DigitsValue(s[2..]))
    else None
  }

  /** The D-day label loses nothing: it reads back as the day count. */
  lemma DDayRoundTrip(days: int)
    ensures ParseDDay(FormatDDay(days)) == Some(days)
  {
    var s := FormatDDay(days);
    if days > 0 {
      assert s[2..] == NatToString(days) && s[..2] == "D-";
      DigitsOfNat(days);
    } else if days < 0 {
      assert s[2..] == NatToString(-days) && s[..2] == "D+";
      DigitsOfNat(-days);
    }
  }
}
