// The editor's markup keys: wrap, prefix or link the selection
// (src/textareaCaret.ts).
module Markup {
  // A text and the selection in it.
  datatype Edit = Edit(value: string, start: nat, end: nat)

  // An absent wrap or prefix is "", which the code treats the same way.
  datatype Key = Key(wrap: string, prefix: string, link: bool)

  predicate Valid(e: Edit) {
    e.start <= e.end <= |e.value|
  }

  function Before(e: Edit): string
    requires Valid(e)
  {
    e.value[..e.start]
  }

  function Selected(e: Edit): string
    requires Valid(e)
  {
    e.value[e.start..e.end]
  }

  function After(e: Edit): string
    requires Valid(e)
  {
    e.value[e.end..]
  }

  // slice with bounds past the end
  function Slice(s: string, from: nat, to: nat): string {
    if from > to || from > |s| then "" else s[from..if to > |s| then |s| else to]
  }

  predicate EndsWith(s: string, w: string) {
    |w| <= |s| && s[|s| - |w|..] == w
  }

  predicate StartsWith(s: string, w: string) {
    w <= s
  }

  // ----- links --------------------------------------------------------------------

  function Link(e: Edit): Edit
    requires Valid(e)
  {
    var caret := e.start + |Selected(e)| + 3;
    Edit(Before(e) + "[" + Selected(e) + "]()" + After(e), caret, caret)
  }

  // The caret lands between the empty parentheses.
  lemma LinkLandsInTheParens(e: Edit)
    requires Valid(e)
    ensures Valid(Link(e)) && Selected(Link(e)) == ""
    ensures Before(Link(e)) == Before(e) + "[" + Selected(e) + "]("
    ensures After(Link(e)) == ")" + After(e)
  {
    assert Link(e).value == (Before(e) + "[" + Selected(e) + "](") + (")" + After(e));
  }

  // ----- wraps --------------------------------------------------------------------

  // The text before the position ends in the marker, and what is before that
  // does not.
  predicate OneAhead(s: string, to: nat, w: string)
    requires to <= |s|
  {
    var n := |w|;
    && (if to >= n then s[to - n..to] else "") == w
    && (if to >= 2 * n then s[to - 2 * n..to - n] else "") != w
  }

  predicate OneBehind(s: string, from: nat, w: string) {
    Slice(s, from, from + |w|) == w && Slice(s, from + |w|, from + 2 * |w|) != w
  }

  predicate AlreadyWrapped(e: Edit, w: string)
    requires Valid(e)
  {
    OneAhead(e.value, e.start, w) && OneBehind(e.value, e.end, w)
  }

  function Wrap(e: Edit, w: string): (r: Edit)
    requires Valid(e) && w != ""
    ensures Valid(r)
  {
    var n := |w|;
    if AlreadyWrapped(e, w)
    then Edit(e.value[..e.start - n] + Selected(e) + e.value[e.end + n..], e.start - n, e.end - n)
    else Edit(Before(e) + w + Selected(e) + w + After(e), e.start + n, e.end + n)
  }

  // An edit by its three parts.
  function Parts(before: string, selected: string, after: string): Edit {
    Edit(before + selected + after, |before|, |before| + |selected|)
  }

  lemma PartsOf(before: string, selected: string, after: string)
    ensures var e := Parts(before, selected, after);
            Valid(e) && Before(e) == before && Selected(e) == selected && After(e) == after
  {
  }

  lemma EditIsItsParts(e: Edit)
    requires Valid(e)
    ensures e == Parts(Before(e), Selected(e), After(e))
  {
  }

  predicate OneAtEnd(before: string, w: string) {
    EndsWith(before, w) && !EndsWith(before[..|before| - |w|], w)
  }

  predicate OneAtStart(after: string, w: string) {
    StartsWith(after, w) && !StartsWith(after[|w|..], w)
  }

  // One marker on each side, and not two.
  predicate OneEachSide(before: string, after: string, w: string) {
    OneAtEnd(before, w) && OneAtStart(after, w)
  }

  lemma SliceStartsWith(s: string, from: nat, w: string)
    requires w != "" && from <= |s|
    ensures Slice(s, from, from + |w|) == w <==> StartsWith(s[from..], w)
  {
    if StartsWith(s[from..], w) {
      assert s[from..from + |w|] == s[from..][..|w|];
    } else if from + |w| <= |s| {
      assert s[from..from + |w|] == s[from..][..|w|];
    }
  }

  lemma TakenEndsWith(s: string, to: nat, w: string)
    requires w != "" && to <= |s|
    ensures (if to >= |w| then s[to - |w|..to] else "") == w <==> EndsWith(s[..to], w)
  {
    if to >= |w| {
      assert s[to - |w|..to] == s[..to][to - |w|..];
    }
  }

  lemma OneAheadIff(s: string, to: nat, w: string)
    requires w != "" && to <= |s|
    ensures OneAhead(s, to, w) <==> OneAtEnd(s[..to], w)
  {
    TakenEndsWith(s, to, w);
    if to >= |w| {
      TakenEndsWith(s, to - |w|, w);
      assert s[..to][..to - |w|] == s[..to - |w|];
    }
  }

  lemma OneBehindIff(s: string, from: nat, w: string)
    requires w != "" && from <= |s|
    ensures OneBehind(s, from, w) <==> OneAtStart(s[from..], w)
  {
    SliceStartsWith(s, from, w);
    if from + |w| <= |s| {
      SliceStartsWith(s, from + |w|, w);
      assert s[from..][|w|..] == s[from + |w|..];
    }
  }

  // The guard reads as it should off the text around the selection.
  lemma AlreadyWrappedIff(e: Edit, w: string)
    requires Valid(e) && w != ""
    ensures AlreadyWrapped(e, w) <==> OneEachSide(Before(e), After(e), w)
  {
    OneAheadIff(e.value, e.start, w);
    OneBehindIff(e.value, e.end, w);
  }

  function Wrapped(before: string, selected: string, after: string, w: string): Edit {
    if OneEachSide(before, after, w)
    then Parts(before[..|before| - |w|], selected, after[|w|..])
    else Parts(before + w, selected, w + after)
  }

  lemma UnwrapByParts(e: Edit, w: string)
    requires Valid(e) && w != "" && AlreadyWrapped(e, w)
    ensures |w| <= e.start && |w| <= |After(e)|
    ensures Wrap(e, w) == Parts(Before(e)[..e.start - |w|], Selected(e), After(e)[|w|..])
  {
    assert Before(e)[..e.start - |w|] == e.value[..e.start - |w|];
    assert After(e)[|w|..] == e.value[e.end + |w|..];
  }

  lemma SurroundByParts(e: Edit, w: string)
    requires Valid(e) && w != "" && !AlreadyWrapped(e, w)
    ensures Wrap(e, w) == Parts(Before(e) + w, Selected(e), w + After(e))
  {
    assert Before(e) + w + Selected(e) + w + After(e) == (Before(e) + w) + Selected(e) + (w + After(e));
  }

  // The selected text stays selected, and what changes is the text around it.
  lemma WrapByParts(e: Edit, w: string)
    requires Valid(e) && w != ""
    ensures Wrap(e, w) == Wrapped(Before(e), Selected(e), After(e), w)
  {
    AlreadyWrappedIff(e, w);
    WrappedEitherWay(Before(e), Selected(e), After(e), w);
    if AlreadyWrapped(e, w) {
      UnwrapByParts(e, w);
    } else {
      SurroundByParts(e, w);
    }
  }

  lemma WrappedEitherWay(before: string, selected: string, after: string, w: string)
    ensures OneEachSide(before, after, w) ==>
              |w| <= |before| && |w| <= |after|
              && Wrapped(before, selected, after, w) == Parts(before[..|before| - |w|], selected, after[|w|..])
    ensures !OneEachSide(before, after, w) ==>
              Wrapped(before, selected, after, w) == Parts(before + w, selected, w + after)
  {
  }

  // A wrap keeps the selected text selected: it takes the marker off both sides
  // where one, and not two, stands on each, and puts one on each side otherwise.
  lemma WrapChangesTheSides(e: Edit, w: string)
    requires Valid(e) && w != ""
    ensures var r := Wrap(e, w);
            && Valid(r) && Selected(r) == Selected(e)
            && if OneEachSide(Before(e), After(e), w)
               then Before(e) == Before(r) + w && After(e) == w + After(r)
               else Before(r) == Before(e) + w && After(r) == w + After(e)
  {
    WrapByParts(e, w);
    if OneEachSide(Before(e), After(e), w) {
      PartsOf(Before(e)[..|Before(e)| - |w|], Selected(e), After(e)[|w|..]);
    } else {
      PartsOf(Before(e) + w, Selected(e), w + After(e));
    }
  }

  lemma WrapTwiceByParts(e: Edit, w: string)
    requires Valid(e) && w != ""
    ensures Wrap(Wrap(e, w), w)
         == if OneEachSide(Before(e), After(e), w)
            then Wrapped(Before(e)[..|Before(e)| - |w|], Selected(e), After(e)[|w|..], w)
            else Wrapped(Before(e) + w, Selected(e), w + After(e), w)
  {
    WrapByParts(e, w);
    WrapByParts(Wrap(e, w), w);
    if OneEachSide(Before(e), After(e), w) {
      PartsOf(Before(e)[..|Before(e)| - |w|], Selected(e), After(e)[|w|..]);
    } else {
      PartsOf(Before(e) + w, Selected(e), w + After(e));
    }
  }

  // Taking a marker off and putting it back is the identity.
  lemma UnwrapThenWrap(e: Edit, w: string)
    requires Valid(e) && w != "" && AlreadyWrapped(e, w)
    ensures Wrap(Wrap(e, w), w) == e
  {
    AlreadyWrappedIff(e, w);
    WrapTwiceByParts(e, w);
    EditIsItsParts(e);
    assert Before(e) == Before(e)[..|Before(e)| - |w|] + w;
    assert After(e) == w + After(e)[|w|..];
  }

  lemma OneMoreEachSide(before: string, after: string, w: string)
    requires w != ""
    ensures OneEachSide(before + w, w + after, w) <==> !EndsWith(before, w) && !StartsWith(after, w)
    ensures (before + w)[..|before + w| - |w|] == before && (w + after)[|w|..] == after
  {
  }

  // Pressing a wrap key twice gives back the text and the selection exactly when
  // the first press unwrapped, or no marker touched the selection on either side.
  lemma WrapTwiceIff(e: Edit, w: string)
    requires Valid(e) && w != ""
    ensures Wrap(Wrap(e, w), w) == e
            <==> (AlreadyWrapped(e, w) || (!EndsWith(Before(e), w) && !StartsWith(After(e), w)))
  {
    AlreadyWrappedIff(e, w);
    if AlreadyWrapped(e, w) {
      UnwrapThenWrap(e, w);
    } else {
      WrapTwiceByParts(e, w);
      OneMoreEachSide(Before(e), After(e), w);
      EditIsItsParts(e);
    }
  }

  // A marker on one side only: the second press wraps again.
  lemma AStrayMarkerBlocksTheToggle()
    ensures var e := Edit("*a", 1, 2);
            Wrap(Wrap(e, "*"), "*") == Edit("***a**", 3, 4)
  {
    var e, wrapped := Edit("*a", 1, 2), Edit("**a*", 2, 3);
    assert Slice(e.value, 2, 3) == "";
    assert !AlreadyWrapped(e, "*");
    assert Before(e) == "*" && Selected(e) == "a" && After(e) == "";
    assert "*" + "*" + "a" + "*" + "" == "**a*";
    assert Wrap(e, "*") == wrapped;
    assert wrapped.value[0..1] == "*";
    assert !OneAhead(wrapped.value, 2, "*");
    assert Before(wrapped) == "**" && Selected(wrapped) == "a" && After(wrapped) == "*";
    assert "**" + "*" + "a" + "*" + "*" == "***a**";
  }

  // ----- prefixes -------------------------------------------------------------------

  // lastIndexOf("\n", from): a negative position still looks at index 0.
  function LastNewline(s: string, from: int): (i: int)
    ensures -1 <= i < |s|
    decreases if from < 0 then 0 else from
  {
    if s == "" then -1
    else if from >= |s| then LastNewline(s, |s| - 1)
    else if from <= 0 then (if s[0] == '\n' then 0 else -1)
    else if s[from] == '\n' then from
    else LastNewline(s, from - 1)
  }

  function LineStart(value: string, start: nat): (i: nat)
    ensures i <= |value|
  {
    LastNewline(value, start - 1) + 1
  }

  // split("\n")
  function Split(s: string): (lines: seq<string>)
    ensures lines != []
  {
    if s == "" then [""]
    else
      var rest := Split(s[1..]);
      if s[0] == '\n' then [""] + rest else [[s[0]] + rest[0]] + rest[1..]
  }

  function Join(lines: seq<string>): string {
    if lines == [] then ""
    else if |lines| == 1 then lines[0]
    else lines[0] + "\n" + Join(lines[1..])
  }

  function WithPrefix(prefix: string, line: string): string {
    if StartsWith(line, prefix) then line else prefix + line
  }

  function WithPrefixes(prefix: string, lines: seq<string>): (prefixed: seq<string>)
    ensures |prefixed| == |lines|
  {
    if lines == [] then [] else [WithPrefix(prefix, lines[0])] + WithPrefixes(prefix, lines[1..])
  }

  function Block(e: Edit): string
    requires Valid(e)
  {
    Slice(e.value, LineStart(e.value, e.start), e.end)
  }

  function Prefix(e: Edit, prefix: string): Edit
    requires Valid(e)
  {
    var lineStart := LineStart(e.value, e.start);
    var prefixed := Join(WithPrefixes(prefix, Split(Block(e))));
    Edit(e.value[..lineStart] + prefixed + After(e), lineStart, lineStart + |prefixed|)
  }

  function ApplyMarkup(e: Edit, key: Key): Edit
    requires Valid(e)
  {
    if key.link then Link(e) else if key.wrap != "" then Wrap(e, key.wrap) else Prefix(e, key.prefix)
  }

  // Where the line holding a position really starts.
  predicate IsLineStart(value: string, at: nat, start: nat)
    requires start <= |value|
  {
    at <= start && (at == 0 || value[at - 1] == '\n') && '\n' !in value[at..start]
  }

  // A caret at 0 before a leading newline, or the anchor of a selection there.
  predicate AtLeadingNewline(value: string, position: nat) {
    position == 0 && value != "" && value[0] == '\n'
  }

  lemma {:induction false} LastNewlineFinds(s: string, from: int)
    requires s != "" && from < |s|
    ensures var i := LastNewline(s, from);
            var f := if from < 0 then 0 else from;
            i <= f && (i >= 0 ==> s[i] == '\n') && '\n' !in s[i + 1..f + 1]
    decreases if from < 0 then 0 else from
  {
    if from > 0 && s[from] != '\n' {
      LastNewlineFinds(s, from - 1);
      var i := LastNewline(s, from);
      assert s[i + 1..from + 1] == s[i + 1..from] + [s[from]];
    }
  }

  // The search finds the start of the line except at 0 before a leading newline,
  // where it skips that empty line.
  lemma LineStartIff(value: string, start: nat)
    requires start <= |value|
    ensures IsLineStart(value, LineStart(value, start), start) <==> !AtLeadingNewline(value, start)
  {
    if value != "" {
      LastNewlineFinds(value, start - 1);
      if start > 0 {
        assert value[LineStart(value, start)..start - 1 + 1] == value[LineStart(value, start)..start];
      }
    }
  }

  // The three pieces a prefix is put together from are the whole text, once,
  // except for a caret at 0 before a leading newline.
  lemma PrefixKeepsTheTextIff(e: Edit)
    requires Valid(e)
    ensures e.value[..LineStart(e.value, e.start)] + Block(e) + After(e) == e.value
            <==> !AtLeadingNewline(e.value, e.end)
  {
    var lineStart := LineStart(e.value, e.start);
    LineStartIff(e.value, e.start);
    if AtLeadingNewline(e.value, e.end) {
      assert lineStart == 1 && Block(e) == "";
      assert |e.value[..lineStart] + Block(e) + After(e)| == |e.value| + 1;
    } else {
      assert lineStart <= e.end;
      assert Block(e) == e.value[lineStart..e.end];
    }
  }

  // There the newline in front of the caret comes out twice.
  lemma ALeadingNewlineIsDoubled()
    ensures Prefix(Edit("\nx", 0, 0), "- ").value == "\n- \nx"
  {
    assert LineStart("\nx", 0) == 1;
    assert Split("") == [""];
    assert WithPrefix("- ", "") == "- ";
    assert WithPrefixes("- ", [""]) == ["- "] by {
      assert [""][1..] == [];
    }
  }

  // ----- a prefix goes on every line --------------------------------------------------

  predicate OneLine(s: string) {
    '\n' !in s
  }

  lemma {:induction false} SplitIntoLines(s: string)
    ensures forall i :: 0 <= i < |Split(s)| ==> OneLine(Split(s)[i])
    ensures Join(Split(s)) == s
  {
    if s != "" {
      var rest := Split(s[1..]);
      SplitIntoLines(s[1..]);
      if s[0] == '\n' {
        assert ([""] + rest)[1..] == rest;
        assert s == "" + "\n" + s[1..];
      } else {
        assert ([[s[0]] + rest[0]] + rest[1..])[1..] == rest[1..];
        assert s == [s[0]] + s[1..];
        if |rest| > 1 {
          assert [s[0]] + (rest[0] + "\n" + Join(rest[1..])) == ([s[0]] + rest[0]) + "\n" + Join(rest[1..]);
        }
      }
    }
  }

  lemma {:induction false} SplitOneLine(s: string)
    requires OneLine(s)
    ensures Split(s) == [s]
  {
    if s != "" {
      SplitOneLine(s[1..]);
      assert s == [s[0]] + s[1..];
    }
  }

  // Two runs of lines put end to end: the last line of one runs into the first
  // of the other.
  function Glue(a: seq<string>, b: seq<string>): (r: seq<string>)
    requires a != [] && b != []
    ensures r != []
  {
    a[..|a| - 1] + [a[|a| - 1] + b[0]] + b[1..]
  }

  lemma {:induction false} SplitConcat(u: string, v: string)
    ensures Split(u + v) == Glue(Split(u), Split(v))
  {
    if u == "" {
      assert u + v == v;
      assert "" + Split(v)[0] == Split(v)[0];
    } else {
      SplitConcat(u[1..], v);
      assert (u + v)[1..] == u[1..] + v;
      GlueOneMore(u[0], Split(u[1..]), Split(v));
    }
  }

  lemma GlueOneMore(c: char, rest: seq<string>, b: seq<string>)
    requires rest != [] && b != []
    ensures Glue([""] + rest, b) == [""] + Glue(rest, b)
    ensures var glued := Glue(rest, b);
            Glue([[c] + rest[0]] + rest[1..], b) == [[c] + glued[0]] + glued[1..]
  {
    if |rest| == 1 {
      assert [c] + (rest[0] + b[0]) == ([c] + rest[0]) + b[0];
    }
  }

  lemma SplitFirstLine(line: string, tail: string)
    requires OneLine(line)
    ensures Split(line + "\n" + tail) == [line] + Split(tail)
  {
    var rest := "\n" + tail;
    assert rest[1..] == tail;
    SplitOneLine(line);
    SplitConcat(line, rest);
    assert Glue([line], [""] + Split(tail)) == [line] + Split(tail) by {
      assert line + "" == line;
    }
    assert line + "\n" + tail == line + rest;
  }

  lemma {:induction false} SplitJoin(lines: seq<string>)
    requires lines != [] && forall i :: 0 <= i < |lines| ==> OneLine(lines[i])
    ensures Split(Join(lines)) == lines
  {
    if |lines| == 1 {
      SplitOneLine(lines[0]);
    } else {
      SplitJoin(lines[1..]);
      SplitFirstLine(lines[0], Join(lines[1..]));
      assert lines == [lines[0]] + lines[1..];
    }
  }

  lemma {:induction false} PrefixedLines(prefix: string, lines: seq<string>)
    requires OneLine(prefix) && forall i :: 0 <= i < |lines| ==> OneLine(lines[i])
    ensures forall i :: 0 <= i < |lines| ==>
              WithPrefixes(prefix, lines)[i] == WithPrefix(prefix, lines[i])
              && StartsWith(WithPrefixes(prefix, lines)[i], prefix) && OneLine(WithPrefixes(prefix, lines)[i])
  {
    if lines != [] {
      PrefixedLines(prefix, lines[1..]);
    }
  }

  // The lines of the result are the lines of the text, with the prefix on each
  // line of the block from the line the selection starts in to where it ends.
  lemma PrefixActsPerLine(e: Edit, prefix: string)
    requires Valid(e) && OneLine(prefix)
    ensures Split(Prefix(e, prefix).value)
         == Glue(Glue(Split(e.value[..LineStart(e.value, e.start)]), WithPrefixes(prefix, Split(Block(e)))),
                 Split(After(e)))
    ensures !AtLeadingNewline(e.value, e.end) ==>
              Split(e.value)
              == Glue(Glue(Split(e.value[..LineStart(e.value, e.start)]), Split(Block(e))), Split(After(e)))
  {
    var head, block := e.value[..LineStart(e.value, e.start)], Block(e);
    var prefixed := WithPrefixes(prefix, Split(block));
    SplitIntoLines(block);
    PrefixedLines(prefix, Split(block));
    SplitJoin(prefixed);
    SplitConcat(head + Join(prefixed), After(e));
    SplitConcat(head, Join(prefixed));
    if !AtLeadingNewline(e.value, e.end) {
      PrefixKeepsTheTextIff(e);
      SplitConcat(head + block, After(e));
      SplitConcat(head, block);
    }
  }

  // Each line of the selection that is left is the old line, where that already
  // starts with the prefix, or else the prefix followed by the old line; the
  // selection starts where the line does.
  lemma EachLineHasThePrefix(e: Edit, prefix: string)
    requires Valid(e) && OneLine(prefix)
    ensures var r := Prefix(e, prefix);
            && Valid(r) && r.start == LineStart(e.value, e.start)
            && Before(r) == e.value[..r.start] && After(r) == After(e)
            && var was, lines := Split(Block(e)), Split(Selected(r));
               |lines| == |was|
               && forall i :: 0 <= i < |was| ==> lines[i] == if prefix <= was[i] then was[i] else prefix + was[i]
  {
    var r, was := Prefix(e, prefix), Split(Block(e));
    SplitIntoLines(Block(e));
    PrefixedLines(prefix, was);
    SplitJoin(WithPrefixes(prefix, was));
    assert Selected(r) == Join(WithPrefixes(prefix, was));
    assert Before(r) == e.value[..r.start] && After(r) == After(e);
  }

  // ----- pressing it again ------------------------------------------------------------

  lemma {:induction false} PrefixingAgainIsNothing(prefix: string, lines: seq<string>)
    requires forall i :: 0 <= i < |lines| ==> StartsWith(lines[i], prefix)
    ensures WithPrefixes(prefix, lines) == lines
  {
    if lines != [] {
      PrefixingAgainIsNothing(prefix, lines[1..]);
    }
  }

  lemma JoinStartsWithTheFirst(lines: seq<string>)
    requires lines != []
    ensures StartsWith(Join(lines), lines[0])
  {
  }

  // The result's selection starts where its line starts.
  lemma PrefixedLineStart(e: Edit, prefix: string)
    requires Valid(e) && prefix != "" && OneLine(prefix)
    ensures Valid(Prefix(e, prefix))
    ensures LineStart(Prefix(e, prefix).value, Prefix(e, prefix).start) == LineStart(e.value, e.start)
  {
    var lineStart, value := LineStart(e.value, e.start), Prefix(e, prefix).value;
    var lines := WithPrefixes(prefix, Split(Block(e)));
    SplitIntoLines(Block(e));
    PrefixedLines(prefix, Split(Block(e)));
    JoinStartsWithTheFirst(lines);
    if lineStart == 0 {
      assert value[0] == prefix[0] && prefix[0] in prefix;
    } else {
      assert e.value != "";
      LastNewlineFinds(e.value, e.start - 1);
      assert value[lineStart - 1] == '\n';
    }
  }

  // Pressing a prefix key again on the selection it left changes nothing, even
  // where the first press doubled a newline.
  lemma PrefixIsIdempotent(e: Edit, prefix: string)
    requires Valid(e) && prefix != "" && OneLine(prefix)
    ensures Valid(Prefix(e, prefix)) && Prefix(Prefix(e, prefix), prefix) == Prefix(e, prefix)
  {
    var once := Prefix(e, prefix);
    var lines := WithPrefixes(prefix, Split(Block(e)));
    SplitIntoLines(Block(e));
    PrefixedLines(prefix, Split(Block(e)));
    SplitJoin(lines);
    PrefixedLineStart(e, prefix);
    assert Block(once) == Join(lines);
    PrefixingAgainIsNothing(prefix, lines);
    assert After(once) == After(e);
    assert once.value[..once.start] == e.value[..once.start];
  }

  // A key that links does nothing else, and one that wraps does not prefix.
  lemma AKeyDoesOneThing(e: Edit, key: Key)
    requires Valid(e)
    ensures key.link ==> After(ApplyMarkup(e, key)) == ")" + After(e)
                         && Before(ApplyMarkup(e, key)) == Before(e) + "[" + Selected(e) + "]("
    ensures !key.link && key.wrap != "" ==> Selected(ApplyMarkup(e, key)) == Selected(e)
    ensures !key.link && key.wrap == "" && OneLine(key.prefix) ==>
              ApplyMarkup(e, key).start == LineStart(e.value, e.start)
  {
    if key.link {
      LinkLandsInTheParens(e);
    } else if key.wrap != "" {
      WrapChangesTheSides(e, key.wrap);
    }
  }

  // An empty wrap falls through to an empty prefix, which leaves the text as it
  // is except for a caret at 0 before a leading newline.
  lemma AnEmptyKeyKeepsTheTextIff(e: Edit)
    requires Valid(e)
    ensures ApplyMarkup(e, Key("", "", false)).value == e.value <==> !AtLeadingNewline(e.value, e.end)
  {
    var lines := Split(Block(e));
    PrefixingAgainIsNothing("", lines);
    SplitIntoLines(Block(e));
    PrefixKeepsTheTextIff(e);
  }
}
