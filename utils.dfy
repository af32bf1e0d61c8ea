/**
 * The helpers of utils.js that carry decision logic: regular-expression escaping, the
 * extraction of the text to narrate from a chat message, and the debounce wrapper.
 */
module Utils {
  import opened Wrappers
  import opened Strings

  // ----- escapeRegex -----

  /** The characters escapeRegex puts a backslash in front of. */
  const RegexSpecials: string := ".*+?^${}()|[]\\"

  predicate IsRegexSpecial(c: char) {
    c in RegexSpecials
  }

  function EscapeChar(c: char): string {
    if IsRegexSpecial(c) then ['\\', c] else [c]
  }

  /** `str.replace(/[.*+?^${}()|[\]\\]/g, '\\$&')`: every special character gets a backslash in front. */
  function EscapeRegex(s: string): (r: string)
    ensures |s| <= |r| <= 2 * |s|
  {
    if s == [] then [] else EscapeChar(s[0]) + EscapeRegex(s[1..])
  }

  /** Reads an escaped pattern back: a backslash makes the next character literal. */
  function UnescapeRegex(r: string): string {
    if r == [] then []
    else if r[0] == '\\' && |r| >= 2 then [r[1]] + UnescapeRegex(r[2..])
    else [r[0]] + UnescapeRegex(r[1..])
  }

  /** Escaping loses nothing: the escaped pattern spells the marker literally. */
  lemma {:induction false} EscapeRegexRoundTrip(s: string)
    ensures UnescapeRegex(EscapeRegex(s)) == s
  {
    if s != [] {
      EscapeRegexRoundTrip(s[1..]);
      var t := EscapeRegex(s[1..]);
      if IsRegexSpecial(s[0]) {
        assert EscapeRegex(s) == ['\\', s[0]] + t;
        assert (['\\', s[0]] + t)[2..] == t;
      } else {
        assert s[0] != '\\' by { assert RegexSpecials[13] == '\\'; }
        assert EscapeRegex(s) == [s[0]] + t;
        assert ([s[0]] + t)[1..] == t;
      }
    }
  }

  /** Escaping works character by character: each character is escaped on its own. */
  lemma {:induction false} EscapeRegexAppend(a: string, b: string)
    ensures EscapeRegex(a + b) == EscapeRegex(a) + EscapeRegex(b)
  {
    if a == [] {
      assert a + b == b;
    } else {
      assert (a + b)[1..] == a[1..] + b;
      EscapeRegexAppend(a[1..], b);
    }
  }

  /** Text without special characters is its own pattern. */
  lemma {:induction false} EscapeRegexPlain(s: string)
    requires forall k :: 0 <= k < |s| ==> !IsRegexSpecial(s[k])
    ensures EscapeRegex(s) == s
  {
    if s != [] {
      EscapeRegexPlain(s[1..]);
    }
  }

  // ----- extractSpeakText -----

  datatype Mode = Marked | Full | Skip

  /** The `{ text, mode }` record extractSpeakText returns; `None` is `null`. */
  datatype Extraction = Extraction(text: Option<string>, mode: Mode)

  /** `char === startMark`: one character of the message compared with the whole marker string. */
  predicate Hits(c: char, mark: string) {
    [c] == mark
  }

  predicate Ascending(p: seq<nat>, n: nat) {
    && (forall k :: 0 <= k < |p| ==> p[k] < n)
    && (forall k, l :: 0 <= k < l < |p| ==> p[k] < p[l])
  }

  /** The indices of `s` whose character is the marker, in increasing order. */
  function Positions(s: string, mark: string): seq<nat> {
    if s == [] then []
    else Positions(s[..|s| - 1], mark) + (if Hits(s[|s| - 1], mark) then [|s| - 1] else [])
  }

  /** Positions lists marker indices only, in increasing order. */
  lemma {:induction false} PositionsAscending(s: string, mark: string)
    ensures Ascending(Positions(s, mark), |s|)
    ensures forall k :: 0 <= k < |Positions(s, mark)| ==> Hits(s[Positions(s, mark)[k]], mark)
  {
    if s != [] {
      var init := s[..|s| - 1];
      PositionsAscending(init, mark);
      assert forall j :: 0 <= j < |init| ==> init[j] == s[j];
    }
  }

  /** Every marker index is listed. */
  lemma {:induction false} PositionsComplete(s: string, mark: string, j: nat)
    requires j < |s| && Hits(s[j], mark)
    ensures j in Positions(s, mark)
  {
    var init := s[..|s| - 1];
    if j < |init| {
      assert init[j] == s[j];
      PositionsComplete(init, mark, j);
    }
  }

  /**
   * Symmetric markers pair up in order of appearance: the text strictly between the
   * first and second marker, the third and fourth, and so on. A last unpaired marker
   * contributes nothing.
   */
  function Pairs(s: string, p: seq<nat>): seq<string> {
    seq(|p| / 2, k requires 0 <= k < |p| / 2 => Between(s, p[2 * k] + 1, p[2 * k + 1]))
  }

  /** `s[a..b]`, or "" when the bounds do not describe a slice. */
  function Between(s: string, a: nat, b: nat): string {
    if a <= b <= |s| then s[a..b] else ""
  }

  /** A candidate after `trim()`, kept only when something is left. */
  function Kept(x: string): seq<string> {
    var t := Trim(x);
    if t != [] then [t] else []
  }

  /** The candidates that survive `trim()`, trimmed, in order. */
  function Keep(raw: seq<string>): seq<string> {
    if raw == [] then [] else Kept(raw[0]) + Keep(raw[1..])
  }

  /** Every kept segment is non-empty and has no white space at either end. */
  lemma {:induction false} KeepSpec(raw: seq<string>)
    ensures |Keep(raw)| <= |raw|
    ensures forall k :: 0 <= k < |Keep(raw)| ==> Keep(raw)[k] != [] && Trimmed(Keep(raw)[k])
  {
    if raw != [] {
      TrimSpec(raw[0]);
      KeepSpec(raw[1..]);
    }
  }

  lemma {:induction false} KeepAppend(a: seq<string>, b: seq<string>)
    ensures Keep(a + b) == Keep(a) + Keep(b)
  {
    if a == [] {
      assert a + b == b;
    } else {
      assert (a + b)[1..] == a[1..] + b;
      KeepAppend(a[1..], b);
    }
  }

  /** The segments the symmetric branch (start equal to end) collects. */
  function SymmetricSegments(s: string, mark: string): seq<string> {
    Keep(Pairs(s, Positions(s, mark)))
  }

  /** One more marker after `p`: it opens a pair when the count is even, closes one when odd. */
  lemma PairsExtend(s: string, p: seq<nat>, j: nat)
    ensures |p| % 2 == 0 ==> Pairs(s, p + [j]) == Pairs(s, p)
    ensures |p| % 2 == 1 ==> Pairs(s, p + [j]) == Pairs(s, p) + [Between(s, p[|p| - 1] + 1, j)]
  {
    var q := p + [j];
    var h := |p| / 2;
    assert forall k :: 0 <= k < |p| ==> q[k] == p[k];
    if |p| % 2 == 0 {
      assert |q| / 2 == h;
      forall k | 0 <= k < h ensures Pairs(s, q)[k] == Pairs(s, p)[k] {
        assert 2 * k + 1 < |p|;
      }
    } else {
      assert |q| / 2 == h + 1 && |p| == 2 * h + 1;
      var b := Pairs(s, p) + [Between(s, p[|p| - 1] + 1, j)];
      forall k | 0 <= k < h + 1 ensures Pairs(s, q)[k] == b[k] {
        if k < h {
          assert 2 * k + 1 < |p|;
        } else {
          assert 2 * k == |p| - 1 && 2 * k + 1 == |p|;
        }
      }
    }
  }

  /** The marker positions of a prefix grow by one index at a time. */
  lemma PositionsStep(s: string, mark: string, i: nat)
    requires i < |s|
    ensures Positions(s[..i + 1], mark) == Positions(s[..i], mark) + (if Hits(s[i], mark) then [i] else [])
  {
    assert s[..i + 1][..i] == s[..i];
  }

  /**
   * The state of the symmetric scan after the first `i` characters, given the marker
   * positions `p` seen so far: inside a pair exactly when an odd number of markers has been
   * seen, `cur` gathers the text since the last marker, and `extracted` holds what the closed
   * pairs contributed.
   */
  ghost predicate SymState(message: string, p: seq<nat>, i: nat, inside: bool, cur: string, extracted: seq<string>)
  {
    && i <= |message|
    && (forall k :: 0 <= k < |p| ==> p[k] < i)
    && inside == (|p| % 2 == 1)
    && (inside ==> cur == message[p[|p| - 1] + 1 .. i])
    && extracted == Keep(Pairs(message, p))
  }

  /** A marker while outside a pair opens one. */
  lemma SymOpen(message: string, p: seq<nat>, i: nat, cur: string, extracted: seq<string>)
    requires i < |message|
    requires SymState(message, p, i, false, cur, extracted)
    ensures SymState(message, p + [i], i + 1, true, "", extracted)
  {
    PairsExtend(message, p, i);
  }

  /** A marker while inside a pair closes it and keeps the trimmed text gathered. */
  lemma SymClose(message: string, p: seq<nat>, i: nat, cur: string, extracted: seq<string>)
    requires i < |message|
    requires SymState(message, p, i, true, cur, extracted)
    ensures SymState(message, p + [i], i + 1, false, "", extracted + Kept(cur))
  {
    PairsExtend(message, p, i);
    KeepAppend(Pairs(message, p), [cur]);
    assert Keep([cur]) == Kept(cur) by {
      assert [cur][1..] == [];
    }
  }

  /** Growing a slice by its next character. */
  lemma SliceSnoc(s: string, a: nat, i: nat)
    requires a <= i < |s|
    ensures s[a..i] + [s[i]] == s[a..i + 1]
  {
  }

  /** Any other character is gathered inside a pair and ignored outside one. */
  lemma SymOther(message: string, p: seq<nat>, i: nat, inside: bool, cur: string, extracted: seq<string>)
    requires i < |message|
    requires SymState(message, p, i, inside, cur, extracted)
    ensures SymState(message, p, i + 1, inside, if inside then cur + [message[i]] else cur, extracted)
  {
    if inside {
      SliceSnoc(message, p[|p| - 1] + 1, i);
    }
  }

  /**
   * The `for` loop of the symmetric branch (utils.js:78-100): `insideQuote` toggles on every
   * character equal to the marker; the text gathered since the opening marker is trimmed and
   * kept when the closing one arrives.
   */
  method ScanSymmetric(message: string, mark: string) returns (extracted: seq<string>)
    ensures extracted == SymmetricSegments(message, mark)
  {
    var insideQuote := false;
    var currentText := "";
    extracted := [];
    var i := 0;
    ghost var p: seq<nat> := [];
    assert message[..0] == [];
    while i < |message|
      invariant i <= |message| && p == Positions(message[..i], mark)
      invariant SymState(message, p, i, insideQuote, currentText, extracted)
    {
      PositionsStep(message, mark, i);
      var c := message[i];
      if Hits(c, mark) {
        if !insideQuote {
          SymOpen(message, p, i, currentText, extracted);
          insideQuote := true;
          currentText := "";
        } else {
          SymClose(message, p, i, currentText, extracted);
          var t := Trim(currentText);
          if t != "" {
            extracted := extracted + [t];
          }
          insideQuote := false;
          currentText := "";
        }
        p := p + [i];
      } else {
        SymOther(message, p, i, insideQuote, currentText, extracted);
        if insideQuote {
          currentText := currentText + [c];
        }
      }
      i := i + 1;
    }
    assert message[..|message|] == message;
  }

  // The asymmetric branch: the global regular expression `start(.*?)end` over the escaped
  // markers. Escaping makes both markers literal text, so a match is a literal occurrence of
  // `start`, then the shortest run of characters other than line terminators, then a literal
  // occurrence of `end`.

  /** No line terminator in `s[a..b]`: the run the regular expression `.` can cover. */
  predicate NoBreak(s: string, a: nat, b: nat)
    requires a <= b <= |s|
  {
    forall k :: a <= k < b ==> !IsLineTerminator(s[k])
  }

  /**
   * The lazy `(.*?)end` tried from index `j`: the first index `q` at which `end` occurs,
   * found before any line terminator stops the run.
   */
  function LazyEnd(s: string, end: string, j: nat): Option<nat>
    requires j <= |s|
    decreases |s| - j
  {
    if OccursAt(s, end, j) then Some(j)
    else if j == |s| || IsLineTerminator(s[j]) then None
    else LazyEnd(s, end, j + 1)
  }

  /**
   * LazyEnd finds the nearest `end` reachable without crossing a line terminator, and
   * reports `None` exactly when no such occurrence exists.
   */
  lemma {:induction false} LazyEndSpec(s: string, end: string, j: nat)
    requires j <= |s|
    ensures var r := LazyEnd(s, end, j);
      && (r.Some? ==> j <= r.value <= |s| && OccursAt(s, end, r.value) && NoBreak(s, j, r.value))
      && (r.Some? ==> forall q :: j <= q < r.value ==> !OccursAt(s, end, q))
      && (r.None? ==> forall q :: j <= q <= |s| && OccursAt(s, end, q) ==> !NoBreak(s, j, q))
    decreases |s| - j
  {
    if !OccursAt(s, end, j) && j < |s| && !IsLineTerminator(s[j]) {
      LazyEndSpec(s, end, j + 1);
    }
  }

  /** Where a match of the regular expression begins, and where its capture group ends. */
  datatype Span = Span(begin: nat, capEnd: nat)

  /** The regular expression matches at index `b`. */
  predicate MatchesAt(s: string, start: string, end: string, b: nat) {
    b + |start| <= |s| && OccursAt(s, start, b) && LazyEnd(s, end, b + |start|).Some?
  }

  /**
   * `regex.exec(message)` with `lastIndex == from`: the leftmost match at or after `from`,
   * or `None` when there is none.
   */
  function Exec(s: string, start: string, end: string, from: nat): Option<Span>
    requires from <= |s|
    decreases |s| - from
  {
    if MatchesAt(s, start, end, from) then
      Some(Span(from, LazyEnd(s, end, from + |start|).value))
    else if from == |s| then None
    else Exec(s, start, end, from + 1)
  }

  /** Exec reports the leftmost match at or after `from`, and `None` exactly when there is none. */
  lemma {:induction false} ExecSpec(s: string, start: string, end: string, from: nat)
    requires from <= |s|
    ensures var r := Exec(s, start, end, from);
      && (r.Some? ==> from <= r.value.begin && MatchesAt(s, start, end, r.value.begin))
      && (r.Some? ==> LazyEnd(s, end, r.value.begin + |start|) == Some(r.value.capEnd))
      && (r.Some? ==> forall b :: from <= b < r.value.begin ==> !MatchesAt(s, start, end, b))
      && (r.None? ==> forall b :: from <= b <= |s| ==> !MatchesAt(s, start, end, b))
    decreases |s| - from
  {
    if !MatchesAt(s, start, end, from) && from < |s| {
      ExecSpec(s, start, end, from + 1);
    }
  }

  /** The end of a match: where the search for the next one resumes. */
  lemma NextFrom(s: string, start: string, end: string, from: nat, m: Span)
    requires start != [] && from <= |s| && Exec(s, start, end, from) == Some(m)
    ensures from < m.capEnd + |end| <= |s|
  {
    ExecSpec(s, start, end, from);
    LazyEndSpec(s, end, m.begin + |start|);
  }

  /**
   * The matches the `while (regex.exec(...))` loop visits from `lastIndex == from`: each
   * later one is searched from the end of the previous match.
   */
  function Spans(s: string, start: string, end: string, from: nat): seq<Span>
    requires start != [] && from <= |s|
    decreases |s| - from
  {
    match Exec(s, start, end, from)
    case None => []
    case Some(m) =>
      NextFrom(s, start, end, from, m);
      [m] + Spans(s, start, end, m.capEnd + |end|)
  }

  /** `match[1]` for each match: the text between the two markers. */
  function Captured(s: string, start: string, spans: seq<Span>): seq<string> {
    if spans == [] then []
    else [Between(s, spans[0].begin + |start|, spans[0].capEnd)] + Captured(s, start, spans[1..])
  }

  /** What the matches from `lastIndex == from` on contribute, once trimmed and filtered. */
  function AsymFrom(s: string, start: string, end: string, from: nat): seq<string>
    requires start != [] && from <= |s|
  {
    Keep(Captured(s, start, Spans(s, start, end, from)))
  }

  /** The segments the asymmetric branch (start different from end) collects. */
  function AsymmetricSegments(s: string, start: string, end: string): seq<string>
    requires start != []
  {
    AsymFrom(s, start, end, 0)
  }

  /**
   * The `while ((match = regex.exec(message)) !== null)` loop (utils.js:106-114): each match
   * resumes the search at the end of the previous one, and each capture is trimmed and kept
   * when something is left.
   */
  method ScanAsymmetric(message: string, start: string, end: string) returns (extracted: seq<string>)
    requires start != []
    ensures extracted == AsymmetricSegments(message, start, end)
  {
    ghost var total := AsymmetricSegments(message, start, end);
    extracted := [];
    var lastIndex: nat := 0;
    var m := Exec(message, start, end, lastIndex);
    assert extracted + AsymFrom(message, start, end, 0) == total;
    while m.Some?
      invariant lastIndex <= |message| && m == Exec(message, start, end, lastIndex)
      invariant extracted + AsymFrom(message, start, end, lastIndex) == total
      decreases |message| - lastIndex
    {
      var span := m.value;
      var cleanText := Trim(Between(message, span.begin + |start|, span.capEnd));
      AsymAdvance(message, start, end, lastIndex, span, extracted, cleanText, total);
      if cleanText != "" {
        extracted := extracted + [cleanText];
      }
      lastIndex := span.capEnd + |end|;
      m := Exec(message, start, end, lastIndex);
    }
    AsymEnd(message, start, end, lastIndex);
  }

  /** No match is left: the remaining matches contribute nothing. */
  lemma AsymEnd(s: string, start: string, end: string, from: nat)
    requires start != [] && from <= |s| && Exec(s, start, end, from).None?
    ensures AsymFrom(s, start, end, from) == []
  {
  }

  /** The loop's invariant survives one match. */
  lemma AsymAdvance(s: string, start: string, end: string, from: nat, m: Span, extracted: seq<string>, cleanText: string, total: seq<string>)
    requires start != [] && from <= |s| && Exec(s, start, end, from) == Some(m)
    requires cleanText == Trim(Between(s, m.begin + |start|, m.capEnd))
    requires extracted + AsymFrom(s, start, end, from) == total
    ensures from < m.capEnd + |end| <= |s|
    ensures cleanText != "" ==> (extracted + [cleanText]) + AsymFrom(s, start, end, m.capEnd + |end|) == total
    ensures cleanText == "" ==> extracted + AsymFrom(s, start, end, m.capEnd + |end|) == total
  {
    AsymStep(s, start, end, from, m);
    var kept := Kept(Between(s, m.begin + |start|, m.capEnd));
    var rest := AsymFrom(s, start, end, m.capEnd + |end|);
    assert extracted + (kept + rest) == (extracted + kept) + rest;
  }

  /** One match of the loop: its kept capture, then whatever the later matches contribute. */
  lemma AsymStep(s: string, start: string, end: string, from: nat, m: Span)
    requires start != [] && from <= |s| && Exec(s, start, end, from) == Some(m)
    ensures from < m.capEnd + |end| <= |s|
    ensures AsymFrom(s, start, end, from)
      == Kept(Between(s, m.begin + |start|, m.capEnd)) + AsymFrom(s, start, end, m.capEnd + |end|)
  {
    NextFrom(s, start, end, from, m);
    var rest := Spans(s, start, end, m.capEnd + |end|);
    var x := Between(s, m.begin + |start|, m.capEnd);
    var c := Captured(s, start, rest);
    assert Spans(s, start, end, from) == [m] + rest;
    CapturedCons(s, start, m, rest);
    KeepCons(x, c);
  }

  lemma CapturedCons(s: string, start: string, m: Span, rest: seq<Span>)
    ensures Captured(s, start, [m] + rest) == [Between(s, m.begin + |start|, m.capEnd)] + Captured(s, start, rest)
  {
    assert ([m] + rest)[1..] == rest;
  }

  lemma KeepCons(x: string, rest: seq<string>)
    ensures Keep([x] + rest) == Kept(x) + Keep(rest)
  {
    assert ([x] + rest)[1..] == rest;
  }

  // ----- the properties of the asymmetric matches -----

  /** Where the search resumes after the `k` first matches of `r`. */
  function ResumeAt(r: seq<Span>, k: nat, endLen: nat, from: nat): nat
    requires k <= |r|
  {
    if k == 0 then from else r[k - 1].capEnd + endLen
  }

  /** The first match, and where the later ones are searched from. */
  lemma SpansCons(s: string, start: string, end: string, from: nat, m: Span)
    requires start != [] && from <= |s| && Exec(s, start, end, from) == Some(m)
    ensures from < m.capEnd + |end| <= |s|
    ensures Spans(s, start, end, from) == [m] + Spans(s, start, end, m.capEnd + |end|)
  {
    NextFrom(s, start, end, from, m);
  }

  /** Each match lies at or after the end of the previous one, and is a genuine match. */
  lemma {:induction false} SpansOrdered(s: string, start: string, end: string, from: nat)
    requires start != [] && from <= |s|
    ensures var r := Spans(s, start, end, from);
      forall k :: 0 <= k < |r| ==>
        && ResumeAt(r, k, |end|, from) <= r[k].begin
        && MatchesAt(s, start, end, r[k].begin)
        && LazyEnd(s, end, r[k].begin + |start|) == Some(r[k].capEnd)
    decreases |s| - from
  {
    ExecSpec(s, start, end, from);
    if Exec(s, start, end, from).Some? {
      var m := Exec(s, start, end, from).value;
      SpansCons(s, start, end, from, m);
      var next := m.capEnd + |end|;
      var rest := Spans(s, start, end, next);
      SpansOrdered(s, start, end, next);
      var r := Spans(s, start, end, from);
      forall k | 0 <= k < |r|
        ensures ResumeAt(r, k, |end|, from) <= r[k].begin && MatchesAt(s, start, end, r[k].begin)
          && LazyEnd(s, end, r[k].begin + |start|) == Some(r[k].capEnd)
      {
        if k > 0 {
          assert r[k] == rest[k - 1];
          assert ResumeAt(r, k, |end|, from) == ResumeAt(rest, k - 1, |end|, next);
        }
      }
    }
  }

  /** No match begins between the end of one match and the start of the next. */
  lemma {:induction false} SpansLeftmost(s: string, start: string, end: string, from: nat)
    requires start != [] && from <= |s|
    ensures var r := Spans(s, start, end, from);
      forall k, b :: 0 <= k < |r| && ResumeAt(r, k, |end|, from) <= b < r[k].begin ==> !MatchesAt(s, start, end, b)
    decreases |s| - from
  {
    ExecSpec(s, start, end, from);
    if Exec(s, start, end, from).Some? {
      var m := Exec(s, start, end, from).value;
      SpansCons(s, start, end, from, m);
      var next := m.capEnd + |end|;
      var rest := Spans(s, start, end, next);
      SpansLeftmost(s, start, end, next);
      var r := Spans(s, start, end, from);
      forall k, b | 0 <= k < |r| && ResumeAt(r, k, |end|, from) <= b < r[k].begin ensures !MatchesAt(s, start, end, b) {
        if k > 0 {
          assert r[k] == rest[k - 1];
          assert ResumeAt(r, k, |end|, from) == ResumeAt(rest, k - 1, |end|, next);
        }
      }
    }
  }

  /** No match begins after the end of the last one. */
  lemma {:induction false} SpansExhaustive(s: string, start: string, end: string, from: nat)
    requires start != [] && from <= |s|
    ensures var r := Spans(s, start, end, from);
      forall b :: ResumeAt(r, |r|, |end|, from) <= b <= |s| ==> !MatchesAt(s, start, end, b)
    decreases |s| - from
  {
    ExecSpec(s, start, end, from);
    if Exec(s, start, end, from).Some? {
      var m := Exec(s, start, end, from).value;
      SpansCons(s, start, end, from, m);
      var next := m.capEnd + |end|;
      var rest := Spans(s, start, end, next);
      SpansExhaustive(s, start, end, next);
      var r := Spans(s, start, end, from);
      assert ResumeAt(r, |r|, |end|, from) == ResumeAt(rest, |rest|, |end|, next) by {
        if |rest| > 0 {
          assert r[|r| - 1] == rest[|rest| - 1];
        }
      }
    }
  }

  /**
   * A capture is the shortest one: it holds no line terminator and no occurrence of the end
   * marker begins inside it.
   */
  lemma CaptureSpec(s: string, start: string, end: string, m: Span)
    requires MatchesAt(s, start, end, m.begin) && LazyEnd(s, end, m.begin + |start|) == Some(m.capEnd)
    ensures m.begin + |start| <= m.capEnd <= |s|
    ensures forall k :: m.begin + |start| <= k < m.capEnd ==> !IsLineTerminator(s[k])
    ensures forall q :: m.begin + |start| <= q < m.capEnd ==> !OccursAt(s, end, q)
    ensures OccursAt(s, start, m.begin) && OccursAt(s, end, m.capEnd)
  {
    LazyEndSpec(s, end, m.begin + |start|);
  }

  // ----- extractSpeakText -----

  /** The segments collected by the branch the two markers select. */
  function Segments(message: string, startMark: string, endMark: string): seq<string>
    requires startMark != []
  {
    if startMark == endMark then SymmetricSegments(message, startMark)
    else AsymmetricSegments(message, startMark, endMark)
  }

  /** Every collected segment is non-empty and trimmed. */
  lemma SegmentsSpec(message: string, startMark: string, endMark: string)
    requires startMark != []
    ensures forall k :: 0 <= k < |Segments(message, startMark, endMark)| ==>
      Segments(message, startMark, endMark)[k] != [] && Trimmed(Segments(message, startMark, endMark)[k])
  {
    if startMark == endMark {
      KeepSpec(Pairs(message, Positions(message, startMark)));
    } else {
      KeepSpec(Captured(message, startMark, Spans(message, startMark, endMark, 0)));
    }
  }

  /**
   * `extractSpeakText(message, startMark, endMark)`: the whole message when a marker is
   * empty; otherwise the collected segments joined by single spaces, or nothing at all.
   */
  function Extract(message: string, startMark: string, endMark: string): (r: Extraction)
    ensures r.mode == Full <==> startMark == [] || endMark == []
    ensures r.mode == Full ==> r.text == Some(message)
    ensures r.mode == Skip <==> r.text == None
    ensures r.mode == Marked ==> r.text.Some? && r.text.value != [] && Trimmed(r.text.value)
    ensures startMark != [] && endMark != [] ==>
      && (r.mode == Skip <==> Segments(message, startMark, endMark) == [])
      && (r.mode == Marked ==> r.text == Some(Join(Segments(message, startMark, endMark), " ")))
  {
    if startMark == [] || endMark == [] then Extraction(Some(message), Full)
    else
      var segments := Segments(message, startMark, endMark);
      if segments == [] then Extraction(None, Skip)
      else
        SegmentsSpec(message, startMark, endMark);
        JoinTrimmed(segments);
        Extraction(Some(Join(segments, " ")), Marked)
  }

  /**
   * extractSpeakText as written (utils.js:67-123): the empty-marker test, then one of the two
   * scans, then the join. The `start(.*?)end` expression is built from the escaped markers,
   * which match the markers literally (EscapeRegexRoundTrip), so ScanAsymmetric's literal
   * search for the markers themselves stands for the compiled expression.
   */
  method ExtractSpeakText(message: string, startMark: string, endMark: string) returns (r: Extraction)
    ensures r == Extract(message, startMark, endMark)
  {
    if startMark == [] || endMark == [] {
      return Extraction(Some(message), Full);
    }
    var extractedTexts: seq<string>;
    if startMark == endMark {
      extractedTexts := ScanSymmetric(message, startMark);
    } else {
      extractedTexts := ScanAsymmetric(message, startMark, endMark);
    }
    if |extractedTexts| > 0 {
      return Extraction(Some(Join(extractedTexts, " ")), Marked);
    }
    return Extraction(None, Skip);
  }

  // ----- properties of the extraction -----

  /** No character equals a marker longer than one character. */
  lemma {:induction false} PositionsOfLongMarker(s: string, mark: string)
    requires |mark| != 1
    ensures Positions(s, mark) == []
  {
    if s != [] {
      PositionsOfLongMarker(s[..|s| - 1], mark);
    }
  }

  /**
   * The symmetric scan compares one character with the marker, so a marker of several
   * characters used at both ends never matches and the message is skipped.
   */
  lemma LongSymmetricMarkerSkips(message: string, mark: string)
    requires |mark| > 1
    ensures Extract(message, mark, mark) == Extraction(None, Skip)
  {
    PositionsOfLongMarker(message, mark);
    assert Pairs(message, []) == [];
  }

  /** With both markers set, an empty message is skipped. */
  lemma EmptyMessageSkips(startMark: string, endMark: string)
    requires startMark != [] && endMark != []
    ensures Extract("", startMark, endMark) == Extraction(None, Skip)
  {
    if startMark == endMark {
      assert Pairs("", []) == [];
    } else {
      assert Exec("", startMark, endMark, 0) == None;
    }
  }

  /** A prefix of a message has the same marker positions as long as what follows holds none. */
  lemma {:induction false} PositionsNoMarkerTail(u: string, t: string, mark: string)
    requires forall k :: 0 <= k < |t| ==> !Hits(t[k], mark)
    ensures Positions(u + t, mark) == Positions(u, mark)
  {
    if t != [] {
      var t' := t[..|t| - 1];
      assert (u + t)[..|u + t| - 1] == u + t';
      PositionsNoMarkerTail(u, t', mark);
    } else {
      assert u + t == u;
    }
  }

  /** Pairs only reads the text up to the last listed position. */
  lemma PairsPrefix(s: string, m: string, p: seq<nat>)
    requires m <= s
    requires forall k :: 0 <= k < |p| ==> p[k] < |m|
    ensures Pairs(s, p) == Pairs(m, p)
  {
    assert m == s[..|m|];
    forall k | 0 <= k < |p| / 2 ensures Pairs(s, p)[k] == Pairs(m, p)[k] {
      var a, b := p[2 * k] + 1, p[2 * k + 1];
      if a <= b {
        assert b < |m|;
        assert s[a..b] == s[..|m|][a..b];
      }
    }
  }

  /**
   * An opening marker that is never closed contributes nothing: after an even number of
   * markers, a last marker followed by marker-free text leaves the segments unchanged.
   */
  lemma UnterminatedTailIgnored(m: string, c: char, t: string, mark: string)
    requires Hits(c, mark) && |Positions(m, mark)| % 2 == 0
    requires forall k :: 0 <= k < |t| ==> !Hits(t[k], mark)
    ensures SymmetricSegments(m + [c] + t, mark) == SymmetricSegments(m, mark)
  {
    var s := m + [c] + t;
    var p := Positions(m, mark);
    PositionsNoMarkerTail(m + [c], t, mark);
    assert (m + [c])[..|m|] == m;
    assert Positions(m + [c], mark) == p + [|m|];
    PairsExtend(s, p, |m|);
    PositionsAscending(m, mark);
    PairsPrefix(s, m, p);
  }

  /** Only white space between the two quotes: nothing is narrated. */
  lemma WhitespaceSegmentSkips()
    ensures Extract("\"   \"", "\"", "\"") == Extraction(None, Skip)
  {
    var s := "\"   \"";
    var q := "\"";
    assert s[..0] == [];
    PositionsStep(s, q, 0);
    PositionsStep(s, q, 1);
    PositionsStep(s, q, 2);
    PositionsStep(s, q, 3);
    PositionsStep(s, q, 4);
    assert s[..5] == s;
    assert Positions(s, q) == [0, 4];
    assert Pairs(s, [0, 4]) == [s[1..4]];
    assert s[1..4] == "   ";
    assert Trim("   ") == [] by {
      TrimSpec("   ");
    }
    assert Keep(["   "]) == [] by {
      assert ["   "][1..] == [];
    }
  }

  // ----- debounce -----

  /** What a debounced function sees: a call with its arguments, or its wait running out. */
  datatype Tick<T> = Invoke(arg: T) | Elapse

  /** The arguments waiting for the timer after a run of ticks (`None`: no timer armed). */
  function Pending<T>(pending: Option<T>, ticks: seq<Tick<T>>): Option<T>
    decreases |ticks|
  {
    if ticks == [] then pending
    else match ticks[0]
      case Invoke(x) => Pending(Some(x), ticks[1..])
      case Elapse => Pending(None, ticks[1..])
  }

  /** The arguments the wrapped function runs with, in order, during a run of ticks. */
  function Fired<T>(pending: Option<T>, ticks: seq<Tick<T>>): seq<T>
    decreases |ticks|
  {
    if ticks == [] then []
    else match ticks[0]
      case Invoke(x) => Fired(Some(x), ticks[1..])
      case Elapse => (if pending.Some? then [pending.value] else []) + Fired(None, ticks[1..])
  }

  function Invokes<T>(xs: seq<T>): (ts: seq<Tick<T>>)
    ensures |ts| == |xs| && forall k :: 0 <= k < |xs| ==> ts[k] == Invoke(xs[k])
  {
    seq(|xs|, k requires 0 <= k < |xs| => Invoke(xs[k]))
  }

  function CountElapses<T>(ticks: seq<Tick<T>>): nat {
    if ticks == [] then 0 else (if ticks[0] == Elapse then 1 else 0) + CountElapses(ticks[1..])
  }

  /** One call re-arms the wait with its arguments; the wait running out runs what was armed and disarms. */
  lemma DebounceStepSpec<T>(pending: Option<T>, x: T)
    ensures Pending(pending, [Invoke(x)]) == Some(x) && Fired(pending, [Invoke(x)]) == []
    ensures Pending(pending, [Elapse]) == None
    ensures Fired(pending, [Elapse]) == (if pending.Some? then [pending.value] else [])
  {
    var call: seq<Tick<T>> := [Invoke(x)];
    var elapse: seq<Tick<T>> := [Elapse];
    assert call[1..] == [];
    assert elapse[1..] == [];
  }

  /** A burst of calls runs nothing on its own and leaves only the last call's arguments waiting. */
  lemma {:induction false} BurstKeepsLast<T>(pending: Option<T>, xs: seq<T>)
    requires |xs| > 0
    ensures Pending(pending, Invokes(xs)) == Some(xs[|xs| - 1])
    ensures Fired(pending, Invokes(xs)) == []
    decreases |xs|
  {
    var ts := Invokes(xs);
    assert ts[1..] == Invokes(xs[1..]);
    if |xs| > 1 {
      BurstKeepsLast(Some(xs[0]), xs[1..]);
    }
  }

  /** Ticks are consumed one after the other. */
  lemma {:induction false} FiredAppend<T>(pending: Option<T>, a: seq<Tick<T>>, b: seq<Tick<T>>)
    ensures Fired(pending, a + b) == Fired(pending, a) + Fired(Pending(pending, a), b)
    decreases |a|
  {
    if a == [] {
      assert a + b == b;
    } else {
      assert (a + b)[1..] == a[1..] + b;
      match a[0]
      case Invoke(x) => FiredAppend(Some(x), a[1..], b);
      case Elapse => FiredAppend(None, a[1..], b);
    }
  }

  /** Last call wins: a burst of calls followed by the wait runs the function once, with the last arguments. */
  lemma LastCallWins<T>(pending: Option<T>, xs: seq<T>)
    requires |xs| > 0
    ensures Fired(pending, Invokes(xs) + [Elapse]) == [xs[|xs| - 1]]
    ensures Pending(pending, Invokes(xs) + [Elapse]) == None
  {
    BurstKeepsLast(pending, xs);
    FiredAppend(pending, Invokes(xs), [Elapse]);
    PendingAppend(pending, Invokes(xs), [Elapse]);
  }

  lemma {:induction false} PendingAppend<T>(pending: Option<T>, a: seq<Tick<T>>, b: seq<Tick<T>>)
    ensures Pending(pending, a + b) == Pending(Pending(pending, a), b)
    decreases |a|
  {
    if a == [] {
      assert a + b == b;
    } else {
      assert (a + b)[1..] == a[1..] + b;
      match a[0]
      case Invoke(x) => PendingAppend(Some(x), a[1..], b);
      case Elapse => PendingAppend(None, a[1..], b);
    }
  }

  /** The wrapped function runs at most once per expiry of the wait. */
  lemma {:induction false} FiredAtMostPerElapse<T>(pending: Option<T>, ticks: seq<Tick<T>>)
    ensures |Fired(pending, ticks)| <= CountElapses(ticks)
    decreases |ticks|
  {
    if ticks != [] {
      match ticks[0]
      case Invoke(x) => FiredAtMostPerElapse(Some(x), ticks[1..]);
      case Elapse => FiredAtMostPerElapse(None, ticks[1..]);
    }
  }

  /**
   * `debounce(func, wait)`: the closure's `timeout` as the arguments it will run `func` with.
   * A call clears the timer and arms a new one; the timer running out runs `func` once.
   */
  class Debouncer<T> {
    var pending: Option<T>

    constructor ()
      ensures pending == None
    {
      pending := None;
    }

    /** The debounced function called: the armed timer is cleared and re-armed with `x`. */
    method Call(x: T)
      modifies this
      ensures pending == Some(x)
      ensures pending == Pending(old(pending), [Invoke(x)]) && Fired(old(pending), [Invoke(x)]) == []
    {
      pending := Some(x);
    }

    /** The wait has run out: `later` runs `func` with the armed arguments, if a timer was armed. */
    method Expire() returns (ran: Option<T>)
      modifies this
      ensures ran == old(pending) && pending == None
      ensures pending == Pending(old(pending), [Elapse])
      ensures (if ran.Some? then [ran.value] else []) == Fired(old(pending), [Elapse])
    {
      ran := pending;
      pending := None;
    }
  }
}
