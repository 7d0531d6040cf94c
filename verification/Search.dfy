// Marking search matches: the backend's snippet sentinels, and the terms of a
// query in text the backend did not mark (src/useSearch.ts).
module Search {
  import opened Wrappers

  datatype Segment = Segment(text: string, marked: bool)

  // Private-use code points, so no note's own text is taken for one.
  const MARK_OPEN: char := '\U{E000}'

  const MARK_CLOSE: char := '\U{E001}'

  // The texts in a row, without their marks.
  function Texts(segments: seq<Segment>): string {
    if segments == [] then ""
    else Texts(segments[..|segments| - 1]) + segments[|segments| - 1].text
  }

  lemma TextsSnoc(a: seq<Segment>, last: Segment)
    ensures Texts(a + [last]) == Texts(a) + last.text
  {
    assert (a + [last])[..|a|] == a;
  }

  lemma {:induction false} TextsAppend(a: seq<Segment>, b: seq<Segment>)
    ensures Texts(a + b) == Texts(a) + Texts(b)
  {
    if b == [] {
      assert a + b == a;
    } else {
      var early, last := b[..|b| - 1], b[|b| - 1];
      assert a + b == (a + early) + [last];
      calc {
        Texts(a + b);
        { TextsSnoc(a + early, last); }
        Texts(a + early) + last.text;
        { TextsAppend(a, early); }
        Texts(a) + Texts(early) + last.text;
        Texts(a) + (Texts(early) + last.text);
        { TextsSnoc(early, last); assert b == early + [last]; }
        Texts(a) + Texts(b);
      }
    }
  }

  function Plain(text: string): seq<Segment> {
    if text == "" then [] else [Segment(text, false)]
  }

  function Marked(text: string): seq<Segment> {
    if text == "" then [] else [Segment(text, true)]
  }

  // ----- snippets -----------------------------------------------------------------

  // indexOf a single character from a position on
  function IndexOf(s: string, c: char, from: nat): (i: Option<nat>)
    requires from <= |s|
    ensures i.Some? ==> from <= i.value < |s|
    decreases |s| - from
  {
    if from == |s| then None else if s[from] == c then Some(from) else IndexOf(s, c, from + 1)
  }

  lemma {:induction false} IndexOfFinds(s: string, c: char, from: nat)
    requires from <= |s|
    ensures match IndexOf(s, c, from)
            case Some(i) => s[i] == c && c !in s[from..i]
            case None => c !in s[from..]
    decreases |s| - from
  {
    if from < |s| && s[from] != c {
      IndexOfFinds(s, c, from + 1);
      assert s[from..] == [s[from]] + s[from + 1..];
      var rest := IndexOf(s, c, from + 1);
      assert rest.Some? ==> s[from..rest.value] == [s[from]] + s[from + 1..rest.value];
    }
  }

  // One pair's worth of segments.
  function Pair(rest: string, open: nat, close: nat): seq<Segment>
    requires open < close < |rest|
  {
    Plain(rest[..open]) + Marked(rest[open + 1..close])
  }

  // The first opener and the first closer after it, if the snippet has both.
  function FirstPair(rest: string): (pair: Option<(nat, nat)>)
    ensures pair.Some? ==> pair.value.0 < pair.value.1 < |rest|
  {
    var open := IndexOf(rest, MARK_OPEN, 0);
    if open.None? then None
    else
      IndexOfFinds(rest, MARK_OPEN, 0);
      IndexOfFinds(rest, MARK_CLOSE, open.value);
      var close := IndexOf(rest, MARK_CLOSE, open.value);
      if close.None? then None else Some((open.value, close.value))
  }

  function Parsed(snippet: string): seq<Segment> {
    var pair := FirstPair(snippet);
    if pair.None? then Plain(snippet)
    else Pair(snippet, pair.value.0, pair.value.1) + Parsed(snippet[pair.value.1 + 1..])
  }

  method PushPair(segments: seq<Segment>, rest: string, open: nat, close: nat) returns (pushed: seq<Segment>)
    requires open < close < |rest|
    ensures pushed == segments + Pair(rest, open, close)
  {
    pushed := segments;
    if open > 0 {
      pushed := pushed + [Segment(rest[..open], false)];
    }
    var between := rest[open + 1..close];
    if between != "" {
      pushed := pushed + [Segment(between, true)];
    }
  }

  // What is still to be parsed completes what has been.
  ghost predicate Completes(segments: seq<Segment>, rest: string, snippet: string) {
    segments + Parsed(rest) == Parsed(snippet)
  }

  lemma OnePairOn(segments: seq<Segment>, rest: string, snippet: string, open: nat, close: nat)
    requires Completes(segments, rest, snippet) && FirstPair(rest) == Some((open, close))
    ensures Completes(segments + Pair(rest, open, close), rest[close + 1..], snippet)
  {
    Regroup(segments, Pair(rest, open, close), Parsed(rest[close + 1..]));
  }

  lemma Regroup(a: seq<Segment>, b: seq<Segment>, c: seq<Segment>)
    ensures a + (b + c) == (a + b) + c
  {
  }

  lemma NoPairLeft(segments: seq<Segment>, rest: string, snippet: string)
    requires Completes(segments, rest, snippet) && FirstPair(rest).None?
    ensures segments + Plain(rest) == Parsed(snippet)
  {
  }

  method ParseSnippet(snippet: string) returns (segments: seq<Segment>)
    ensures segments == Parsed(snippet)
  {
    segments := [];
    var rest := snippet;
    while rest != ""
      invariant Completes(segments, rest, snippet)
      decreases |rest|
    {
      var pair := FirstPair(rest);
      if pair.None? {
        break;
      }
      var (open, close) := pair.value;
      OnePairOn(segments, rest, snippet, open, close);
      segments := PushPair(segments, rest, open, close);
      rest := rest[close + 1..];
    }
    NoPairLeft(segments, rest, snippet);
    segments := segments + Plain(rest);
  }

  // One character at a time: drop an opener that some closer follows, and the
  // next closer after it.
  function Strip(snippet: string, inside: bool): string {
    if snippet == "" then ""
    else if !inside && snippet[0] == MARK_OPEN && MARK_CLOSE in snippet[1..] then Strip(snippet[1..], true)
    else if inside && snippet[0] == MARK_CLOSE then Strip(snippet[1..], false)
    else [snippet[0]] + Strip(snippet[1..], inside)
  }

  lemma {:induction false} StripOutside(snippet: string, n: nat)
    requires n <= |snippet| && (MARK_OPEN !in snippet[..n] || MARK_CLOSE !in snippet)
    ensures Strip(snippet, false) == snippet[..n] + Strip(snippet[n..], false)
  {
    if n > 0 {
      assert snippet[0] in snippet[..n];
      assert forall c :: c in snippet[1..][..n - 1] ==> c in snippet[..n];
      StripOutside(snippet[1..], n - 1);
      assert snippet[..n] == [snippet[0]] + snippet[1..][..n - 1];
      assert snippet[1..][n - 1..] == snippet[n..];
    }
  }

  lemma {:induction false} StripInside(snippet: string, n: nat)
    requires n < |snippet| && MARK_CLOSE !in snippet[..n] && snippet[n] == MARK_CLOSE
    ensures Strip(snippet, true) == snippet[..n] + Strip(snippet[n + 1..], false)
  {
    if n > 0 {
      assert snippet[0] in snippet[..n];
      assert forall c :: c in snippet[1..][..n - 1] ==> c in snippet[..n];
      StripInside(snippet[1..], n - 1);
      assert snippet[..n] == [snippet[0]] + snippet[1..][..n - 1];
      assert snippet[1..][n..] == snippet[n + 1..];
    }
  }

  // On any input the texts are the snippet with exactly the paired sentinels
  // taken out.
  lemma {:induction false} ParsingOnlyStrips(snippet: string)
    ensures Texts(Parsed(snippet)) == Strip(snippet, false)
    decreases |snippet|
  {
    var pair := FirstPair(snippet);
    if pair.None? {
      UnpairedStrip(snippet);
    } else {
      ParsingOnlyStrips(snippet[pair.value.1 + 1..]);
      OnePairStrips(snippet, pair.value.0, pair.value.1);
    }
  }

  lemma UnpairedStrip(snippet: string)
    requires FirstPair(snippet).None?
    ensures Strip(snippet, false) == snippet
  {
    var open := IndexOf(snippet, MARK_OPEN, 0);
    IndexOfFinds(snippet, MARK_OPEN, 0);
    assert snippet[0..] == snippet;
    if open.None? {
      StripOutside(snippet, |snippet|);
    } else {
      UnclosedStrip(snippet, open.value);
    }
  }

  // An opening sentinel that nothing closes stays, with all that follows it.
  lemma UnclosedStrip(snippet: string, o: nat)
    requires IndexOf(snippet, MARK_OPEN, 0) == Some(o) && IndexOf(snippet, MARK_CLOSE, o).None?
    ensures Strip(snippet, false) == snippet
  {
    IndexOfFinds(snippet, MARK_OPEN, 0);
    IndexOfFinds(snippet, MARK_CLOSE, o);
    assert snippet[0..o] == snippet[..o];
    StripOutside(snippet, o);
    StripOutside(snippet[o..], |snippet| - o);
    assert snippet[..o] + snippet[o..] == snippet;
  }

  lemma PairTexts(rest: string, open: nat, close: nat)
    requires open < close < |rest|
    ensures Texts(Pair(rest, open, close)) == rest[..open] + rest[open + 1..close]
  {
    TextsAppend(Plain(rest[..open]), Marked(rest[open + 1..close]));
  }

  lemma OnePairStrips(snippet: string, o: nat, c: nat)
    requires FirstPair(snippet) == Some((o, c))
    requires Texts(Parsed(snippet[c + 1..])) == Strip(snippet[c + 1..], false)
    ensures Texts(Parsed(snippet)) == Strip(snippet, false)
  {
    PairedTexts(snippet, o, c);
    PairedStrip(snippet, o, c);
  }

  lemma ParsedUnfolds(snippet: string, o: nat, c: nat)
    requires FirstPair(snippet) == Some((o, c))
    ensures Parsed(snippet) == Pair(snippet, o, c) + Parsed(snippet[c + 1..])
  {
  }

  lemma TextsOfBoth(whole: seq<Segment>, head: seq<Segment>, tail: seq<Segment>, text: string)
    requires whole == head + tail && Texts(head) == text
    ensures Texts(whole) == text + Texts(tail)
  {
    TextsAppend(head, tail);
  }

  lemma PairedTexts(snippet: string, o: nat, c: nat)
    requires FirstPair(snippet) == Some((o, c))
    ensures Texts(Parsed(snippet)) == snippet[..o] + snippet[o + 1..c] + Texts(Parsed(snippet[c + 1..]))
  {
    ParsedUnfolds(snippet, o, c);
    PairTexts(snippet, o, c);
    TextsOfBoth(Parsed(snippet), Pair(snippet, o, c), Parsed(snippet[c + 1..]), snippet[..o] + snippet[o + 1..c]);
  }

  lemma FirstPairFacts(snippet: string, o: nat, c: nat)
    requires FirstPair(snippet) == Some((o, c))
    ensures snippet[o] == MARK_OPEN && MARK_OPEN !in snippet[..o]
    ensures snippet[c] == MARK_CLOSE && MARK_CLOSE !in snippet[o..c]
  {
    IndexOfFinds(snippet, MARK_OPEN, 0);
    IndexOfFinds(snippet, MARK_CLOSE, o);
    assert snippet[0..o] == snippet[..o];
  }

  lemma OpenedStrip(rest: string, n: nat)
    requires 0 < n < |rest| && rest[0] == MARK_OPEN && rest[n] == MARK_CLOSE && MARK_CLOSE !in rest[..n]
    ensures Strip(rest, false) == rest[1..n] + Strip(rest[n + 1..], false)
  {
    var inside := rest[1..];
    assert inside[n - 1] == MARK_CLOSE && inside[..n - 1] == rest[1..n];
    assert forall x :: x in rest[1..n] ==> x in rest[..n];
    StripInside(inside, n - 1);
    assert inside[n..] == rest[n + 1..];
  }

  lemma PairedStrip(snippet: string, o: nat, c: nat)
    requires FirstPair(snippet) == Some((o, c))
    ensures Strip(snippet, false) == snippet[..o] + snippet[o + 1..c] + Strip(snippet[c + 1..], false)
  {
    FirstPairFacts(snippet, o, c);
    StripOutside(snippet, o);
    var rest, n := snippet[o..], c - o;
    assert rest[..n] == snippet[o..c] && rest[1..n] == snippet[o + 1..c] && rest[n + 1..] == snippet[c + 1..];
    OpenedStrip(rest, n);
  }

  // ----- the round trip ------------------------------------------------------------

  predicate HasSentinel(text: string) {
    MARK_OPEN in text || MARK_CLOSE in text
  }

  predicate Clean(segments: seq<Segment>) {
    forall i :: 0 <= i < |segments| ==> !HasSentinel(segments[i].text)
  }

  // What the backend sends for a list of segments.
  function Render(segments: seq<Segment>): string {
    if segments == [] then ""
    else (if segments[0].marked then [MARK_OPEN] + segments[0].text + [MARK_CLOSE] else segments[0].text)
         + Render(segments[1..])
  }

  // The normal form: plain runs merge until the next mark, whether or not that
  // mark holds anything, and empty segments go.
  function Normal(held: string, segments: seq<Segment>): seq<Segment>
    decreases |segments|
  {
    if segments == [] then Plain(held)
    else if segments[0].marked then Plain(held) + Marked(segments[0].text) + Normal("", segments[1..])
    else Normal(held + segments[0].text, segments[1..])
  }

  // No empty segment and no two plain ones side by side.
  predicate Canonical(segments: seq<Segment>) {
    && (forall i :: 0 <= i < |segments| ==> segments[i].text != "")
    && (forall i :: 0 < i < |segments| ==> segments[i - 1].marked || segments[i].marked)
  }

  lemma IndexOfIs(s: string, c: char, from: nat, i: nat)
    requires from <= i < |s| && s[i] == c && c !in s[from..i]
    ensures IndexOf(s, c, from) == Some(i)
  {
    IndexOfFinds(s, c, from);
    assert s[from..][i - from] == c;
  }

  function Bracketed(held: string, text: string, after: string): string {
    held + ([MARK_OPEN] + text + [MARK_CLOSE] + after)
  }

  lemma SlicesOfBracketed(held: string, text: string, after: string)
    ensures var s, o, c := Bracketed(held, text, after), |held|, |held| + 1 + |text|;
            && c < |s| && s[o] == MARK_OPEN && s[c] == MARK_CLOSE
            && s[..o] == held && s[o..c] == [MARK_OPEN] + text && s[o + 1..c] == text && s[c + 1..] == after
  {
  }

  lemma FirstPairIs(held: string, text: string, after: string)
    requires !HasSentinel(held) && !HasSentinel(text)
    ensures FirstPair(Bracketed(held, text, after)) == Some((|held|, |held| + 1 + |text|))
  {
    var s := Bracketed(held, text, after);
    var o, c := |held|, |held| + 1 + |text|;
    SlicesOfBracketed(held, text, after);
    assert s[0..o] == s[..o];
    IndexOfIs(s, MARK_OPEN, 0, o);
    IndexOfIs(s, MARK_CLOSE, o, c);
  }

  lemma {:induction false} ParsingRendersBack(held: string, segments: seq<Segment>)
    requires !HasSentinel(held) && Clean(segments)
    ensures Parsed(held + Render(segments)) == Normal(held, segments)
    decreases |segments|
  {
    if segments == [] {
      assert held + "" == held;
      IndexOfFinds(held, MARK_OPEN, 0);
    } else {
      var text, after := segments[0].text, Render(segments[1..]);
      if segments[0].marked {
        MarkedRendersBack(held, text, after);
        ParsingRendersBack("", segments[1..]);
        assert "" + after == after;
      } else {
        assert held + (text + after) == (held + text) + after;
        ParsingRendersBack(held + text, segments[1..]);
      }
    }
  }

  lemma MarkedRendersBack(held: string, text: string, after: string)
    requires !HasSentinel(held) && !HasSentinel(text)
    ensures Parsed(Bracketed(held, text, after)) == Plain(held) + Marked(text) + Parsed(after)
  {
    FirstPairIs(held, text, after);
    SlicesOfBracketed(held, text, after);
    ParsedAtPair(Bracketed(held, text, after), |held|, |held| + 1 + |text|, held, text, after);
  }

  lemma ParsedAtPair(s: string, o: nat, c: nat, held: string, text: string, after: string)
    requires FirstPair(s) == Some((o, c)) && s[..o] == held && s[o + 1..c] == text && s[c + 1..] == after
    ensures Parsed(s) == Plain(held) + Marked(text) + Parsed(after)
  {
  }

  // Parsing what the backend renders gives the segments' normal form.
  lemma ParseOfRender(segments: seq<Segment>)
    requires Clean(segments)
    ensures Parsed(Render(segments)) == Normal("", segments)
  {
    ParsingRendersBack("", segments);
    assert "" + Render(segments) == Render(segments);
  }

  lemma NormalMarked(held: string, text: string, tail: seq<Segment>)
    requires text != ""
    ensures Plain(held) + Marked(text) + (Plain("") + tail) == Plain(held) + ([Segment(text, true)] + tail)
  {
  }

  lemma NormalPlain(text: string, tail: seq<Segment>)
    requires text != ""
    ensures Plain(text) + tail == Plain("") + ([Segment(text, false)] + tail)
  {
  }

  lemma {:induction false} NormalOfCanonical(held: string, segments: seq<Segment>)
    requires Canonical(segments) && (held != "" ==> segments == [] || segments[0].marked)
    ensures Normal(held, segments) == Plain(held) + segments
    decreases |segments|
  {
    if segments != [] {
      var text, tail := segments[0].text, segments[1..];
      assert segments == [segments[0]] + tail;
      if segments[0].marked {
        NormalOfCanonical("", tail);
        NormalMarked(held, text, tail);
      } else {
        assert held + text == text;
        NormalOfCanonical(text, tail);
        NormalPlain(text, tail);
      }
    }
  }

  // So a canonical list comes back exactly.
  lemma CanonicalSegmentsRoundTrip(segments: seq<Segment>)
    requires Clean(segments) && Canonical(segments)
    ensures Parsed(Render(segments)) == segments
  {
    ParseOfRender(segments);
    NormalOfCanonical("", segments);
  }

  lemma NormalOfThree(a: Segment, b: Segment, c: Segment)
    requires !a.marked && b.marked && !c.marked
    ensures Normal("", [a, b, c]) == Plain("" + a.text) + Marked(b.text) + Plain("" + c.text)
  {
    assert [a, b, c][1..] == [b, c] && [b, c][1..] == [c] && [c][1..] == [];
    assert Normal("", [c]) == Plain("" + c.text);
    assert Normal("" + a.text, [b, c]) == Plain("" + a.text) + Marked(b.text) + Plain("" + c.text);
  }

  // An empty match leaves no segment but still parts the text around it.
  lemma AnEmptyMarkParts(before: string, after: string)
    requires before != "" && after != ""
    requires Clean([Segment(before, false), Segment("", true), Segment(after, false)])
    ensures Parsed(Render([Segment(before, false), Segment("", true), Segment(after, false)]))
         == [Segment(before, false), Segment(after, false)]
  {
    ParseOfRender([Segment(before, false), Segment("", true), Segment(after, false)]);
    NormalOfThree(Segment(before, false), Segment("", true), Segment(after, false));
    assert "" + before == before && "" + after == after;
  }

  // ----- terms ----------------------------------------------------------------------

  // What the locale supplies: case folding that keeps the length, which
  // characters belong to words, and which are white space.
  datatype Letters = Letters(lower: char -> char, word: char -> bool, space: char -> bool)

  function Lower(k: Letters, s: string): string {
    seq(|s|, i requires 0 <= i < |s| => k.lower(s[i]))
  }

  predicate HasWord(k: Letters, s: string) {
    exists i :: 0 <= i < |s| && k.word(s[i])
  }

  // split(/\s+/): the runs of non-space characters; an empty first or last piece
  // holds no word and is filtered out with the rest.
  function Words(k: Letters, query: string, held: string): seq<string>
    decreases |query|
  {
    if query == "" then [held]
    else if k.space(query[0]) then [held] + Words(k, query[1..], "")
    else Words(k, query[1..], held + [query[0]])
  }

  function TermsOf(k: Letters, words: seq<string>): seq<string> {
    if words == [] then []
    else (if HasWord(k, words[0]) then [Lower(k, words[0])] else []) + TermsOf(k, words[1..])
  }

  // The query's terms; the last of them is matched as a prefix.
  function Terms(k: Letters, query: string): (terms: seq<string>)
    ensures forall i :: 0 <= i < |terms| ==> terms[i] != ""
  {
    TermsAreNotEmpty(k, Words(k, query, ""));
    TermsOf(k, Words(k, query, ""))
  }

  lemma {:induction false} TermsAreNotEmpty(k: Letters, words: seq<string>)
    ensures forall i :: 0 <= i < |TermsOf(k, words)| ==> TermsOf(k, words)[i] != ""
  {
    if words != [] {
      TermsAreNotEmpty(k, words[1..]);
    }
  }

  // A maximal run without white space.
  predicate IsRun(k: Letters, s: string, i: nat, j: nat) {
    && i <= j <= |s|
    && (forall n :: i <= n < j ==> !k.space(s[n]))
    && (i == 0 || k.space(s[i - 1]))
    && (j == |s| || k.space(s[j]))
  }

  // The runs that hold a word character, from one starting at `start` and read up
  // to `at`.
  function WordSpans(k: Letters, s: string, start: nat, at: nat): seq<(nat, nat)>
    requires start <= at <= |s|
    decreases |s| - at
  {
    if at < |s| && !k.space(s[at]) then WordSpans(k, s, start, at + 1)
    else
      (if HasWord(k, s[start..at]) then [(start, at)] else [])
      + (if at == |s| then [] else WordSpans(k, s, at + 1, at + 1))
  }

  // These are, from left to right, all the runs of s from `start` on that hold a
  // word character.
  ghost predicate AreTheWordRuns(k: Letters, s: string, start: nat, spans: seq<(nat, nat)>) {
    && (forall n :: 0 <= n < |spans| ==>
          start <= spans[n].0 && IsRun(k, s, spans[n].0, spans[n].1) && HasWord(k, s[spans[n].0..spans[n].1]))
    && (forall m, n :: 0 <= m < n < |spans| ==> spans[m].0 < spans[n].0)
    && (forall i: nat, j: nat :: start <= i && IsRun(k, s, i, j) && HasWord(k, s[i..j]) ==> (i, j) in spans)
  }

  lemma RunsEndOnce(k: Letters, s: string, start: nat, at: nat, i: nat, j: nat)
    requires start <= at <= |s| && (forall n :: start <= n < at ==> !k.space(s[n])) && (at == |s| || k.space(s[at]))
    requires start <= i && IsRun(k, s, i, j)
    ensures i == start ==> j == at
    ensures i > start ==> i > at
  {
  }

  lemma {:induction false} WordSpansAreTheRuns(k: Letters, s: string, start: nat, at: nat)
    requires start <= at <= |s| && (start == 0 || k.space(s[start - 1]))
    requires forall n :: start <= n < at ==> !k.space(s[n])
    ensures AreTheWordRuns(k, s, start, WordSpans(k, s, start, at))
    decreases |s| - at
  {
    if at < |s| && !k.space(s[at]) {
      WordSpansAreTheRuns(k, s, start, at + 1);
    } else if at < |s| {
      WordSpansAreTheRuns(k, s, at + 1, at + 1);
      ARunIsOver(k, s, start, at, WordSpans(k, s, at + 1, at + 1));
    } else {
      ARunIsOver(k, s, start, at, []);
    }
  }

  lemma ARunIsOver(k: Letters, s: string, start: nat, at: nat, rest: seq<(nat, nat)>)
    requires start <= at <= |s| && (start == 0 || k.space(s[start - 1]))
    requires (forall n :: start <= n < at ==> !k.space(s[n])) && (at == |s| || k.space(s[at]))
    requires if at == |s| then rest == []
             else rest == WordSpans(k, s, at + 1, at + 1) && AreTheWordRuns(k, s, at + 1, rest)
    ensures AreTheWordRuns(k, s, start, WordSpans(k, s, start, at))
  {
    FirstSpanJoins(k, s, start, at, rest);
  }

  lemma AWordlessRunIsSkipped(k: Letters, s: string, start: nat, at: nat, rest: seq<(nat, nat)>)
    requires start <= at <= |s| && !HasWord(k, s[start..at])
    requires (forall n :: start <= n < at ==> !k.space(s[n])) && (at == |s| || k.space(s[at]))
    requires AreTheWordRuns(k, s, at + 1, rest)
    ensures AreTheWordRuns(k, s, start, rest)
  {
    forall i: nat, j: nat | start <= i && IsRun(k, s, i, j) && HasWord(k, s[i..j]) ensures (i, j) in rest {
      RunsEndOnce(k, s, start, at, i, j);
    }
  }

  lemma AWordIsPutFirst(k: Letters, s: string, start: nat, at: nat, rest: seq<(nat, nat)>)
    requires start <= at <= |s| && HasWord(k, s[start..at]) && (start == 0 || k.space(s[start - 1]))
    requires (forall n :: start <= n < at ==> !k.space(s[n])) && (at == |s| || k.space(s[at]))
    requires AreTheWordRuns(k, s, at + 1, rest)
    ensures AreTheWordRuns(k, s, start, [(start, at)] + rest)
  {
    var spans := [(start, at)] + rest;
    assert forall n :: 1 <= n < |spans| ==> spans[n] == rest[n - 1];
    forall i: nat, j: nat | start <= i && IsRun(k, s, i, j) && HasWord(k, s[i..j]) ensures (i, j) in spans {
      RunsEndOnce(k, s, start, at, i, j);
      if i == start {
        assert (i, j) == spans[0];
      } else {
        assert (i, j) in rest;
      }
    }
  }

  lemma FirstSpanJoins(k: Letters, s: string, start: nat, at: nat, rest: seq<(nat, nat)>)
    requires start <= at <= |s| && (start == 0 || k.space(s[start - 1]))
    requires (forall n :: start <= n < at ==> !k.space(s[n])) && (at == |s| || k.space(s[at]))
    requires if at == |s| then rest == [] else AreTheWordRuns(k, s, at + 1, rest)
    ensures AreTheWordRuns(k, s, start, (if HasWord(k, s[start..at]) then [(start, at)] else []) + rest)
  {
    if HasWord(k, s[start..at]) {
      AWordIsPutFirst(k, s, start, at, rest);
    } else {
      AWordlessRunIsSkipped(k, s, start, at, rest);
      var none: seq<(nat, nat)> := [];
      assert none + rest == rest;
    }
  }

  function Cut(k: Letters, s: string, spans: seq<(nat, nat)>): seq<string>
    requires forall n :: 0 <= n < |spans| ==> spans[n].0 <= spans[n].1 <= |s|
  {
    seq(|spans|, n requires 0 <= n < |spans| => Lower(k, s[spans[n].0..spans[n].1]))
  }

  lemma {:induction false} SpansInBounds(k: Letters, s: string, start: nat, at: nat)
    requires start <= at <= |s|
    ensures forall n :: 0 <= n < |WordSpans(k, s, start, at)| ==>
              WordSpans(k, s, start, at)[n].0 <= WordSpans(k, s, start, at)[n].1 <= |s|
    decreases |s| - at
  {
    if at < |s| {
      if k.space(s[at]) {
        SpansInBounds(k, s, at + 1, at + 1);
      } else {
        SpansInBounds(k, s, start, at + 1);
      }
    }
  }

  lemma FirstSpanCut(k: Letters, s: string, head: seq<(nat, nat)>, rest: seq<(nat, nat)>)
    requires forall n :: 0 <= n < |head| ==> head[n].0 <= head[n].1 <= |s|
    requires forall n :: 0 <= n < |rest| ==> rest[n].0 <= rest[n].1 <= |s|
    ensures Cut(k, s, head + rest) == Cut(k, s, head) + Cut(k, s, rest)
  {
  }

  lemma FirstTerm(k: Letters, held: string, rest: seq<string>)
    ensures TermsOf(k, [held] + rest) == (if HasWord(k, held) then [Lower(k, held)] else []) + TermsOf(k, rest)
  {
    assert ([held] + rest)[1..] == rest;
  }

  ghost predicate TermsAreCut(k: Letters, s: string, start: nat, at: nat)
    requires start <= at <= |s|
  {
    SpansInBounds(k, s, start, at);
    TermsOf(k, Words(k, s[at..], s[start..at])) == Cut(k, s, WordSpans(k, s, start, at))
  }

  lemma ARunEnds(k: Letters, s: string, start: nat, at: nat)
    requires start <= at < |s| && k.space(s[at]) && TermsAreCut(k, s, at + 1, at + 1)
    ensures TermsAreCut(k, s, start, at)
  {
    SpansInBounds(k, s, at + 1, at + 1);
    assert s[at..][1..] == s[at + 1..] && s[at + 1..at + 1] == "";
    FirstTerm(k, s[start..at], Words(k, s[at + 1..], ""));
    FirstSpanCut(k, s, if HasWord(k, s[start..at]) then [(start, at)] else [], WordSpans(k, s, at + 1, at + 1));
  }

  lemma {:induction false} TermsAreSpans(k: Letters, s: string, start: nat, at: nat)
    requires start <= at <= |s|
    ensures TermsAreCut(k, s, start, at)
    decreases |s| - at
  {
    if at == |s| {
      FirstTerm(k, s[start..at], []);
      assert [s[start..at]] + [] == [s[start..at]];
    } else if k.space(s[at]) {
      TermsAreSpans(k, s, at + 1, at + 1);
      ARunEnds(k, s, start, at);
    } else {
      TermsAreSpans(k, s, start, at + 1);
      assert s[at..][1..] == s[at + 1..] && s[start..at + 1] == s[start..at] + [s[at]];
    }
  }

  ghost predicate HoldsAWord(k: Letters, s: string, i: nat, j: nat) {
    exists m :: i <= m < j <= |s| && k.word(s[m])
  }

  lemma WordsInARun(k: Letters, s: string, i: nat, j: nat)
    requires i <= j <= |s|
    ensures HasWord(k, s[i..j]) <==> HoldsAWord(k, s, i, j)
  {
    if m :| 0 <= m < |s[i..j]| && k.word(s[i..j][m]) {
      assert k.word(s[i + m]);
    }
    if m :| i <= m < j && k.word(s[m]) {
      assert s[i..j][m - i] == s[m];
    }
  }

  // The terms are, in order, the folded white-space-free runs of the query that
  // hold a word character; so the prefix term is the last of those.
  lemma TermsAreTheRuns(k: Letters, query: string) returns (spans: seq<(nat, nat)>)
    ensures |Terms(k, query)| == |spans| && forall m, n :: 0 <= m < n < |spans| ==> spans[m].0 < spans[n].0
    ensures forall i: nat, j: nat :: (i, j) in spans <==> IsRun(k, query, i, j) && HoldsAWord(k, query, i, j)
    ensures forall n :: 0 <= n < |spans| ==>
              var (i, j), term := spans[n], Terms(k, query)[n];
              i <= j <= |query| && |term| == j - i && forall m :: 0 <= m < |term| ==> term[m] == k.lower(query[i + m])
  {
    forall i: nat, j: nat | i <= j <= |query| ensures HasWord(k, query[i..j]) <==> HoldsAWord(k, query, i, j) {
      WordsInARun(k, query, i, j);
    }
    spans := WordSpans(k, query, 0, 0);
    WordSpansAreTheRuns(k, query, 0, 0);
    SpansInBounds(k, query, 0, 0);
    TermsAreSpans(k, query, 0, 0);
    assert query[0..] == query && query[0..0] == "";
  }

  predicate WordAt(k: Letters, text: string, i: int) {
    0 <= i < |text| && k.word(text[i])
  }

  // The term matches at a token boundary and, unless it is the one being typed,
  // ends at one.
  predicate Matches(k: Letters, text: string, terms: seq<string>, i: nat, term: string)
    requires terms != []
  {
    && !WordAt(k, text, i - 1)
    && i + |term| <= |text|
    && Lower(k, text)[i..i + |term|] == term
    && (term == terms[|terms| - 1] || !WordAt(k, text, i + |term|))
  }

  // The first of the terms that matches here.
  function Found(k: Letters, text: string, terms: seq<string>, i: nat, from: nat): Option<string>
    requires terms != [] && from <= |terms|
    decreases |terms| - from
  {
    if from == |terms| then None
    else if Matches(k, text, terms, i, terms[from]) then Some(terms[from])
    else Found(k, text, terms, i, from + 1)
  }

  lemma {:induction false} FoundMatches(k: Letters, text: string, terms: seq<string>, i: nat, from: nat)
    requires terms != [] && from <= |terms|
    ensures var term := Found(k, text, terms, i, from);
            if term.Some? then term.value in terms && Matches(k, text, terms, i, term.value)
            else forall j :: from <= j < |terms| ==> !Matches(k, text, terms, i, terms[j])
    decreases |terms| - from
  {
    if from < |terms| && !Matches(k, text, terms, i, terms[from]) {
      FoundMatches(k, text, terms, i, from + 1);
    }
  }

  // Where segment n starts.
  function Start(segments: seq<Segment>, n: nat): nat
    requires n <= |segments|
  {
    |Texts(segments[..n])|
  }

  predicate Spells(text: string, segment: Segment, at: nat) {
    at + |segment.text| <= |text| && segment.text == text[at..at + |segment.text|]
  }

  ghost predicate NoneFound(k: Letters, text: string, terms: seq<string>, from: nat, to: nat)
    requires terms != []
  {
    forall i :: from <= i < to ==> Found(k, text, terms, i, 0).None?
  }

  ghost predicate SegmentFits(k: Letters, text: string, terms: seq<string>, segment: Segment, at: nat)
    requires terms != []
  {
    && segment.text != ""
    && Spells(text, segment, at)
    && (if segment.marked
        then var term := Found(k, text, terms, at, 0); term.Some? && |term.value| == |segment.text|
        else NoneFound(k, text, terms, at, at + |segment.text|))
  }

  lemma FoundFits(k: Letters, text: string, terms: seq<string>, at: nat)
    requires terms != [] && (forall i :: 0 <= i < |terms| ==> terms[i] != "") && Found(k, text, terms, at, 0).Some?
    ensures var end := at + |Found(k, text, terms, at, 0).value|;
            at < end <= |text| && SegmentFits(k, text, terms, Segment(text[at..end], true), at)
  {
    FoundMatches(k, text, terms, at, 0);
  }

  lemma PlainFits(k: Letters, text: string, terms: seq<string>, from: nat, to: nat)
    requires terms != [] && from < to <= |text| && NoneFound(k, text, terms, from, to)
    ensures SegmentFits(k, text, terms, Segment(text[from..to], false), from)
  {
  }

  // A marking of the text up to a position: every marked segment is the first
  // term that matches where it starts, no term matches anywhere in a plain one,
  // and plain segments are as long as they can be.
  ghost predicate Highlights(k: Letters, text: string, terms: seq<string>, segments: seq<Segment>, to: nat)
    requires terms != []
  {
    && Start(segments, |segments|) == to
    && (forall n :: 0 <= n < |segments| ==> SegmentFits(k, text, terms, segments[n], Start(segments, n)))
    && (forall n :: 0 < n < |segments| ==> segments[n - 1].marked || segments[n].marked)
  }

  lemma StartsStay(segments: seq<Segment>, segment: Segment)
    ensures forall n :: 0 <= n <= |segments| ==> Start(segments + [segment], n) == Start(segments, n)
    ensures Start(segments + [segment], |segments| + 1) == Start(segments, |segments|) + |segment.text|
  {
    var longer := segments + [segment];
    forall n | 0 <= n <= |segments| ensures longer[..n] == segments[..n] {
    }
    assert longer[..|segments| + 1] == longer && segments[..|segments|] == segments;
    assert longer[..|longer| - 1] == segments;
  }

  lemma HighlightsExtend(k: Letters, text: string, terms: seq<string>,
        segments: seq<Segment>, at: nat, segment: Segment)
    requires terms != [] && Highlights(k, text, terms, segments, at) && SegmentFits(k, text, terms, segment, at)
    requires segments == [] || segments[|segments| - 1].marked || segment.marked
    ensures Highlights(k, text, terms, segments + [segment], at + |segment.text|)
  {
    StartsStay(segments, segment);
  }

  method PushPlain(k: Letters, text: string, terms: seq<string>, segments: seq<Segment>, from: nat, to: nat)
    returns (pushed: seq<Segment>)
    requires terms != [] && from <= to <= |text| && NoneFound(k, text, terms, from, to)
    requires Highlights(k, text, terms, segments, from)
    requires segments == [] || segments[|segments| - 1].marked
    ensures Highlights(k, text, terms, pushed, to)
  {
    pushed := segments;
    if to > from {
      var plain := Segment(text[from..to], false);
      PlainFits(k, text, terms, from, to);
      HighlightsExtend(k, text, terms, segments, from, plain);
      pushed := pushed + [plain];
    }
  }

  method PushMarked(k: Letters, text: string, terms: seq<string>, segments: seq<Segment>, at: nat, end: nat)
    returns (pushed: seq<Segment>)
    requires terms != [] && Highlights(k, text, terms, segments, at)
    requires at < end <= |text| && SegmentFits(k, text, terms, Segment(text[at..end], true), at)
    ensures Highlights(k, text, terms, pushed, end)
    ensures pushed != [] && pushed[|pushed| - 1].marked
  {
    HighlightsExtend(k, text, terms, segments, at, Segment(text[at..end], true));
    pushed := segments + [Segment(text[at..end], true)];
  }

  method HighlightTerms(k: Letters, text: string, query: string) returns (segments: seq<Segment>)
    ensures var terms := Terms(k, query);
            if terms == [] then segments == [Segment(text, false)]
            else Highlights(k, text, terms, segments, |text|)
  {
    var terms := Terms(k, query);
    if terms == [] {
      return [Segment(text, false)];
    }
    segments := [];
    var plainFrom, index := 0, 0;
    while index < |text|
      invariant 0 <= plainFrom <= index <= |text|
      invariant Highlights(k, text, terms, segments, plainFrom)
      invariant segments == [] || segments[|segments| - 1].marked
      invariant NoneFound(k, text, terms, plainFrom, index)
    {
      var term := Found(k, text, terms, index, 0);
      if term.None? {
        index := index + 1;
        continue;
      }
      FoundFits(k, text, terms, index);
      segments := PushPlain(k, text, terms, segments, plainFrom, index);
      segments := PushMarked(k, text, terms, segments, index, index + |term.value|);
      index := index + |term.value|;
      plainFrom := index;
    }
    segments := PushPlain(k, text, terms, segments, plainFrom, |text|);
  }

  lemma NextStart(segments: seq<Segment>, n: nat)
    requires n < |segments|
    ensures Start(segments, n + 1) == Start(segments, n) + |segments[n].text|
    ensures Texts(segments[..n + 1]) == Texts(segments[..n]) + segments[n].text
  {
    assert segments[..n + 1][..n] == segments[..n];
  }

  lemma {:induction false} StartsClimb(segments: seq<Segment>, n: nat, m: nat)
    requires n <= m <= |segments|
    ensures Start(segments, n) <= Start(segments, m)
    decreases m - n
  {
    if n < m {
      NextStart(segments, n);
      StartsClimb(segments, n + 1, m);
    }
  }

  lemma {:induction false} SpelledUpTo(text: string, segments: seq<Segment>, n: nat)
    requires n <= |segments| && Start(segments, |segments|) <= |text|
    requires forall m :: 0 <= m < |segments| ==> Spells(text, segments[m], Start(segments, m))
    ensures Start(segments, n) <= |text| && Texts(segments[..n]) == text[..Start(segments, n)]
  {
    StartsClimb(segments, n, |segments|);
    if n > 0 {
      SpelledUpTo(text, segments, n - 1);
      NextStart(segments, n - 1);
      assert Spells(text, segments[n - 1], Start(segments, n - 1));
      assert text[..Start(segments, n)] == text[..Start(segments, n - 1)] + segments[n - 1].text;
    }
  }

  // Nothing is lost: the segments spell the text.
  lemma HighlightIsLossless(k: Letters, text: string, terms: seq<string>, segments: seq<Segment>)
    requires terms != [] && Highlights(k, text, terms, segments, |text|)
    ensures Texts(segments) == text
  {
    forall m | 0 <= m < |segments| ensures Spells(text, segments[m], Start(segments, m)) {
      assert SegmentFits(k, text, terms, segments[m], Start(segments, m));
    }
    SpelledUpTo(text, segments, |segments|);
    assert segments[..|segments|] == segments && text[..|text|] == text;
  }

  lemma FoldedSlice(k: Letters, text: string, i: nat, term: string)
    requires i + |term| <= |text|
    ensures Lower(k, text)[i..i + |term|] == term <==> forall j :: 0 <= j < |term| ==> k.lower(text[i + j]) == term[j]
  {
    if forall j :: 0 <= j < |term| ==> k.lower(text[i + j]) == term[j] {
      assert forall j :: 0 <= j < |term| ==> Lower(k, text)[i..i + |term|][j] == term[j];
    } else {
      var j :| 0 <= j < |term| && k.lower(text[i + j]) != term[j];
      assert Lower(k, text)[i..i + |term|][j] != term[j];
    }
  }

  // The same in characters: folded, the text reads as the term; no word character
  // comes right before; and none right after, unless it is the last term.
  ghost predicate Occurs(k: Letters, text: string, terms: seq<string>, i: nat, term: string)
    requires terms != []
  {
    && i + |term| <= |text|
    && (forall j :: 0 <= j < |term| ==> k.lower(text[i + j]) == term[j])
    && (i == 0 || !k.word(text[i - 1]))
    && (term == terms[|terms| - 1] || i + |term| == |text| || !k.word(text[i + |term|]))
  }

  lemma MatchesIffOccurs(k: Letters, text: string, terms: seq<string>, i: nat, term: string)
    requires terms != [] && i <= |text|
    ensures Matches(k, text, terms, i, term) <==> Occurs(k, text, terms, i, term)
  {
    if i + |term| <= |text| {
      FoldedSlice(k, text, i, term);
    }
  }

  lemma {:induction false} FoundIsFirst(k: Letters, text: string, terms: seq<string>, i: nat, from: nat)
      returns (t: nat)
    requires terms != [] && from <= |terms| && Found(k, text, terms, i, from).Some?
    ensures from <= t < |terms| && Found(k, text, terms, i, from) == Some(terms[t])
    ensures Matches(k, text, terms, i, terms[t]) && forall j :: from <= j < t ==> !Matches(k, text, terms, i, terms[j])
    decreases |terms| - from
  {
    if Matches(k, text, terms, i, terms[from]) {
      t := from;
    } else {
      t := FoundIsFirst(k, text, terms, i, from + 1);
    }
  }

  // Every marked segment is as long as a term that it spells, case folded; it
  // starts after no word character and ends before none unless the term is the
  // last; and no earlier term occurs there.
  lemma MarksAreMatches(k: Letters, text: string, terms: seq<string>, segments: seq<Segment>, n: nat)
      returns (t: nat)
    requires terms != [] && Highlights(k, text, terms, segments, |text|)
    requires n < |segments| && segments[n].marked
    ensures t < |terms| && |terms[t]| == |segments[n].text|
    ensures var at, term := Start(segments, n), terms[t];
            && at + |term| <= |text|
            && (forall j :: 0 <= j < |term| ==> k.lower(text[at + j]) == term[j])
            && (at == 0 || !k.word(text[at - 1]))
            && (term == terms[|terms| - 1] || at + |term| == |text| || !k.word(text[at + |term|]))
    ensures forall i :: 0 <= i < t ==> !Occurs(k, text, terms, Start(segments, n), terms[i])
  {
    var at := Start(segments, n);
    assert SegmentFits(k, text, terms, segments[n], at);
    t := FoundIsFirst(k, text, terms, at, 0);
    MatchesIffOccurs(k, text, terms, at, terms[t]);
    forall i | 0 <= i < t ensures !Occurs(k, text, terms, at, terms[i]) {
      MatchesIffOccurs(k, text, terms, at, terms[i]);
    }
  }

  // At no position left plain does any term so occur.
  lemma PlainHasNoMatch(k: Letters, text: string, terms: seq<string>,
        segments: seq<Segment>, n: nat, i: nat, term: string)
    requires terms != [] && Highlights(k, text, terms, segments, |text|)
    requires n < |segments| && !segments[n].marked && term in terms
    requires Start(segments, n) <= i < Start(segments, n + 1)
    ensures i < |text|
    ensures || i + |term| > |text|
            || (exists j :: 0 <= j < |term| && k.lower(text[i + j]) != term[j])
            || (i > 0 && k.word(text[i - 1]))
            || (term != terms[|terms| - 1] && i + |term| < |text| && k.word(text[i + |term|]))
  {
    NextStart(segments, n);
    assert SegmentFits(k, text, terms, segments[n], Start(segments, n));
    assert Found(k, text, terms, i, 0).None?;
    FoundMatches(k, text, terms, i, 0);
    MatchesIffOccurs(k, text, terms, i, term);
  }

  // ----- only one marking ----------------------------------------------------------

  lemma NextSegmentsAgree(k: Letters, text: string, terms: seq<string>, a: seq<Segment>,
        b: seq<Segment>, n: nat)
    requires terms != [] && Highlights(k, text, terms, a, |text|) && Highlights(k, text, terms, b, |text|)
    requires n < |a| && n < |b| && a[..n] == b[..n]
    ensures |a[n].text| <= |b[n].text|
    ensures a[n].marked == b[n].marked
    ensures Spells(text, a[n], Start(a, n)) && Spells(text, b[n], Start(a, n))
  {
    var at := Start(a, n);
    assert at == Start(b, n);
    assert SegmentFits(k, text, terms, a[n], at) && SegmentFits(k, text, terms, b[n], at);
    NextStart(a, n);
    NextStart(b, n);
    StartsClimb(a, n + 1, |a|);
    if n + 1 < |b| {
      assert SegmentFits(k, text, terms, b[n + 1], Start(b, n + 1));
    }
  }

  lemma OneMoreAgrees(k: Letters, text: string, terms: seq<string>, a: seq<Segment>,
        b: seq<Segment>, n: nat)
    requires terms != [] && Highlights(k, text, terms, a, |text|) && Highlights(k, text, terms, b, |text|)
    requires n < |a| && n < |b| && a[..n] == b[..n]
    ensures a[..n + 1] == b[..n + 1]
  {
    NextSegmentsAgree(k, text, terms, a, b, n);
    NextSegmentsAgree(k, text, terms, b, a, n);
    SpelledAlike(text, a[n], b[n], Start(a, n));
    TakeOneMore(a, b, n);
  }

  lemma SpelledAlike(text: string, x: Segment, y: Segment, at: nat)
    requires Spells(text, x, at) && Spells(text, y, at) && x.marked == y.marked
    requires |x.text| <= |y.text| && |y.text| <= |x.text|
    ensures x == y
  {
  }

  lemma TakeOneMore(a: seq<Segment>, b: seq<Segment>, n: nat)
    requires n < |a| && n < |b| && a[..n] == b[..n] && a[n] == b[n]
    ensures a[..n + 1] == b[..n + 1]
  {
    assert a[..n + 1] == a[..n] + [a[n]] && b[..n + 1] == b[..n] + [b[n]];
  }

  lemma {:induction false} MarkingsAgreeFrom(k: Letters, text: string, terms: seq<string>, a: seq<Segment>,
        b: seq<Segment>, n: nat)
    requires terms != [] && Highlights(k, text, terms, a, |text|) && Highlights(k, text, terms, b, |text|)
    requires n <= |a| && n <= |b| && a[..n] == b[..n]
    ensures a == b
    decreases |a| - n
  {
    if n < |a| && n < |b| {
      OneMoreAgrees(k, text, terms, a, b, n);
      MarkingsAgreeFrom(k, text, terms, a, b, n + 1);
    } else {
      NoMoreSegments(k, text, terms, a, n);
      NoMoreSegments(k, text, terms, b, n);
      assert a[..|a|] == a && b[..|b|] == b;
    }
  }

  lemma NoMoreSegments(k: Letters, text: string, terms: seq<string>, segments: seq<Segment>, n: nat)
    requires terms != [] && Highlights(k, text, terms, segments, |text|) && n <= |segments|
    ensures Start(segments, n) == |text| <==> n == |segments|
  {
    if n < |segments| {
      NextStart(segments, n);
      StartsClimb(segments, n + 1, |segments|);
      assert SegmentFits(k, text, terms, segments[n], Start(segments, n));
    }
  }

  // A text has one marking: greedy from the left, first term that matches,
  // nothing unmarked that could have been marked.
  lemma HighlightIsUnique(k: Letters, text: string, terms: seq<string>, a: seq<Segment>,
        b: seq<Segment>)
    requires terms != [] && Highlights(k, text, terms, a, |text|) && Highlights(k, text, terms, b, |text|)
    ensures a == b
  {
    assert a[..0] == b[..0];
    MarkingsAgreeFrom(k, text, terms, a, b, 0);
  }
}
