/** The regular expressions of the settings reader, each of which has the
    shape `literal (\d+) literal ... [^\[]* tail`, written as explicit string
    functions.

    A pattern is a head of literals and digit runs followed by one of three
    tails that look at the run of non-'[' characters after the head:
      - `Run`:               `([^\[]*)`           capture the whole run;
      - `RunContaining(n)`:  `[^\[]*n`            the run contains `n`
                                                  (the match ends after its last occurrence);
      - `RunThen(c)`:        `([^\[]*c)`          the run is followed by `c`.
    Every `\d+` in the source is followed by `\]`, so backtracking can only
    ever accept the maximal digit run; every `c` of a `RunThen` starts with
    '[' and no needle contains '[', so backtracking into the run never finds
    another match either. Under those conditions this matcher and the
    backtracking regular-expression engine accept the same positions. */
module SectionMatch {
  import opened Wrappers
  import opened Text

  datatype Token = Lit(text: string) | Number
  datatype Tail = Run | RunContaining(needle: string) | RunThen(close: string)
  datatype Pattern = Pattern(head: seq<Token>, tail: Tail)

  /** A match from `start` to `end`; the head ends (and the run begins) at
      `body`; `numbers` are the digit runs in order and `capture` the text
      matched by the tail. */
  datatype Match = Match(start: nat, body: nat, end: nat, numbers: seq<string>, capture: string)

  datatype HeadMatch = HeadMatch(end: nat, numbers: seq<string>)

  function NumberCount(head: seq<Token>): nat
  {
    if |head| == 0 then 0 else (if head[0].Number? then 1 else 0) + NumberCount(head[1..])
  }

  /** Length of the run of ASCII digits at `i` (`\d` without Unicode properties). */
  function DigitRun(s: string, i: nat): (n: nat)
    requires i <= |s|
    decreases |s| - i
    ensures i + n <= |s| && AllDigits(s[i..i + n])
    ensures i + n == |s| || !IsDigit(s[i + n])
  {
    if i < |s| && IsDigit(s[i]) then
      var n := DigitRun(s, i + 1);
      assert s[i..i + 1 + n] == [s[i]] + s[i + 1..i + 1 + n];
      1 + n
    else 0
  }

  function MatchHead(s: string, i: nat, head: seq<Token>): (r: Option<HeadMatch>)
    requires i <= |s|
    decreases head
    ensures r.Some? ==> i <= r.value.end <= |s| && |r.value.numbers| == NumberCount(head)
    ensures r.Some? ==> forall k :: 0 <= k < |r.value.numbers| ==>
                          |r.value.numbers[k]| > 0 && AllDigits(r.value.numbers[k])
  {
    if |head| == 0 then Some(HeadMatch(i, []))
    else match head[0]
      case Lit(t) =>
        if StartsAt(s, i, t) then MatchHead(s, i + |t|, head[1..]) else None
      case Number =>
        var n := DigitRun(s, i);
        if n == 0 then None
        else (match MatchHead(s, i + n, head[1..])
          case None => None
          case Some(h) => Some(HeadMatch(h.end, [s[i..i + n]] + h.numbers)))
  }

  /** A head of the shape literal, number, literal matches when the first
      literal is there, followed by a non-empty digit run and the second
      literal; the number is that run. */
  lemma LitNumberLitHead(s: string, i: nat, a: string, b: string)
    requires i <= |s| && MatchHead(s, i, [Lit(a), Number, Lit(b)]).Some?
    ensures StartsAt(s, i, a)
            && var n := DigitRun(s, i + |a|);
               && n > 0 && StartsAt(s, i + |a| + n, b)
               && MatchHead(s, i, [Lit(a), Number, Lit(b)])
                  == Some(HeadMatch(i + |a| + n + |b|, [s[i + |a|..i + |a| + n]]))
  {
    var h := [Lit(a), Number, Lit(b)];
    assert h[0] == Lit(a) && h[1..] == [Number, Lit(b)];
    assert StartsAt(s, i, a);
    var j := i + |a|;
    assert MatchHead(s, i, h) == MatchHead(s, j, [Number, Lit(b)]);
    var n := DigitRun(s, j);
    assert [Number, Lit(b)][1..] == [Lit(b)];
    assert n > 0;
    var k := j + n;
    assert MatchHead(s, k, [Lit(b)]).Some?;
    assert StartsAt(s, k, b);
    assert [Lit(b)][1..] == [];
    assert MatchHead(s, k, [Lit(b)]) == Some(HeadMatch(k + |b|, []));
    assert [s[j..k]] + [] == [s[j..k]];
    assert MatchHead(s, j, [Number, Lit(b)]) == Some(HeadMatch(k + |b|, [s[j..k]]));
  }

  /** `m` covers `s[m.start..m.end]`, its head ends at `m.body`, and its
      capture is the text from there to the end. */
  predicate Spans(s: string, i: nat, m: Match)
  {
    i == m.start <= m.body <= m.end <= |s| && m.capture == s[m.body..m.end]
  }

  /** `LastFrom` over the occurrences of `t`, stated with `StartsAt`. */
  lemma LastOccurrence(s: string, t: string, lo: nat, hi: nat)
    requires LastFrom(Occurrences(s, t), lo, hi).Some?
    ensures var q := LastFrom(Occurrences(s, t), lo, hi).value;
      StartsAt(s, q, t) && forall q' :: q < q' <= hi ==> !StartsAt(s, q', t)
  {
    var q := LastFrom(Occurrences(s, t), lo, hi).value;
    assert Occurrences(s, t)(q);
    forall q' | q < q' <= hi ensures !StartsAt(s, q', t) {
      assert !Occurrences(s, t)(q');
    }
  }

  /** What each tail kind guarantees about the text of a match. */
  predicate TailHolds(s: string, m: Match, t: Tail)
    requires m.body <= m.end <= |s|
  {
    match t
    case Run =>
      m.end == StopAt(s, m.body, '[')
    case RunContaining(needle) =>
      (forall k :: m.body <= k < m.end ==> s[k] != '[')
      && m.end >= m.body + |needle|
      && StartsAt(s, m.end - |needle|, needle)
      && forall q :: m.end - |needle| < q && q + |needle| <= StopAt(s, m.body, '[') ==> !StartsAt(s, q, needle)
    case RunThen(close) =>
      m.end >= m.body + |close|
      && StartsAt(s, m.end - |close|, close)
      && (forall k :: m.body <= k < m.end - |close| ==> s[k] != '[')
      && (m.end - |close| == |s| || s[m.end - |close|] == '[')
  }

  /** The tail of `p` after a head that ended at `h.end`: a `Run` captures
      the whole run of non-'[' characters; a `RunContaining(needle)` run must
      contain `needle` and gives back characters until its last occurrence;
      a `RunThen(close)` run must be followed by `close`, captured with it. */
  function TailMatch(s: string, i: nat, h: HeadMatch, t: Tail): (r: Option<Match>)
    requires i <= h.end <= |s|
    ensures t.Run? ==> r.Some?
    ensures r.Some? ==> Spans(s, i, r.value) && r.value.body == h.end && r.value.numbers == h.numbers
    ensures r.Some? ==> TailHolds(s, r.value, t)
  {
    var e := StopAt(s, h.end, '[');
    match t
    case Run =>
      Some(Match(i, h.end, e, h.numbers, s[h.end..e]))
    case RunContaining(needle) =>
      NeedleMatch(s, i, h, needle)
    case RunThen(close) =>
      if StartsAt(s, e, close) then Some(Match(i, h.end, e + |close|, h.numbers, s[h.end..e + |close|]))
      else None
  }

  /** The `RunContaining(needle)` tail: the run must contain `needle`, and
      the greedy `[^\[]*` gives back characters until its last occurrence. */
  function NeedleMatch(s: string, i: nat, h: HeadMatch, needle: string): (r: Option<Match>)
    requires i <= h.end <= |s|
    ensures r.Some? ==> Spans(s, i, r.value) && r.value.body == h.end && r.value.numbers == h.numbers
    ensures r.Some? ==> TailHolds(s, r.value, RunContaining(needle))
  {
    var e := StopAt(s, h.end, '[');
    if e < h.end + |needle| then None
    else match LastFrom(Occurrences(s, needle), h.end, e - |needle|)
      case None => None
      case Some(q) =>
        LastOccurrence(s, needle, h.end, e - |needle|);
        Some(Match(i, h.end, q + |needle|, h.numbers, s[h.end..q + |needle|]))
  }

  /** The attempt of the pattern anchored at position `i`. */
  function MatchAt(s: string, i: nat, p: Pattern): (r: Option<Match>)
    ensures r.Some? ==> Spans(s, i, r.value) && TailHolds(s, r.value, p.tail)
    ensures r.Some? ==> |r.value.numbers| == NumberCount(p.head)
    ensures r.Some? ==> MatchHead(s, i, p.head) == Some(HeadMatch(r.value.body, r.value.numbers))
  {
    if i > |s| then None
    else match MatchHead(s, i, p.head)
      case None => None
      case Some(h) => TailMatch(s, i, h, p.tail)
  }

  /** A single literal matches exactly where it occurs. */
  lemma LitHead(s: string, i: nat, t: string)
    requires i <= |s|
    ensures MatchHead(s, i, [Lit(t)]) == if StartsAt(s, i, t) then Some(HeadMatch(i + |t|, [])) else None
  {
    assert [Lit(t)][1..] == [];
  }

  /** Once the head has matched, the tail decides: a `Run` always matches, a
      `RunContaining(needle)` matches exactly when the run holds an
      occurrence of `needle`, and a `RunThen(close)` exactly when `close`
      follows the run. */
  lemma MatchAtAfterHead(s: string, i: nat, p: Pattern)
    requires i <= |s| && MatchHead(s, i, p.head).Some?
    ensures var body := MatchHead(s, i, p.head).value.end;
      var e := StopAt(s, body, '[');
      match p.tail
      case Run => MatchAt(s, i, p).Some?
      case RunContaining(needle) =>
        MatchAt(s, i, p).Some? <==> exists q :: body <= q && q + |needle| <= e && StartsAt(s, q, needle)
      case RunThen(close) => MatchAt(s, i, p).Some? <==> StartsAt(s, e, close)
  {
    var body := MatchHead(s, i, p.head).value.end;
    var e := StopAt(s, body, '[');
    if p.tail.RunContaining? {
      var needle := p.tail.needle;
      if exists q :: body <= q && q + |needle| <= e && StartsAt(s, q, needle) {
        var q :| body <= q && q + |needle| <= e && StartsAt(s, q, needle);
        assert Occurrences(s, needle)(q);
        assert LastFrom(Occurrences(s, needle), body, e - |needle|).Some?;
      }
    }
  }

  function Matches(s: string, p: Pattern): nat -> bool
  {
    (i: nat) => MatchAt(s, i, p).Some?
  }

  /** `QRegularExpression::match(s, from)`: the leftmost match at or after `from`. */
  function Find(s: string, from: nat, p: Pattern): (r: Option<Match>)
    ensures r.Some? ==> from <= r.value.start && MatchAt(s, r.value.start, p) == r
    ensures r.Some? ==> forall j :: from <= j < r.value.start ==> MatchAt(s, j, p).None?
    ensures r.None? ==> forall j :: from <= j <= |s| ==> MatchAt(s, j, p).None?
  {
    var first := FirstFrom(Matches(s, p), from, |s|);
    var last := if first.Some? then first.value else |s| + 1;
    assert forall j :: from <= j < last ==> MatchAt(s, j, p).None? by {
      forall j | from <= j < last ensures MatchAt(s, j, p).None? {
        assert !Matches(s, p)(j);
      }
    }
    if first.Some? then
      assert Matches(s, p)(first.value);
      MatchAt(s, first.value, p)
    else None
  }
}
