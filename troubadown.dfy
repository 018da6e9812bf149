/**
 * Troubadown: the inline markup `|[name?][class:]body|` rewritten into
 * `<span ...>body</span>`, with the list of tooltip labels the spans declare.
 *
 * The scan in the source is a `for` loop over the matches of one regular
 * expression. No group of that expression can contain `|`, so a match always
 * runs from one `|` to the next one: bars pair up left to right, and a final
 * unpaired bar is plain text. `Tokenize` states that pairing, `ParseMarkup`
 * the prefix parse inside a span, `Translate` the whole result, and the
 * method `Troubadownify` is the cursor loop proved against `Translate`.
 */
module Troubadown {
  import opened Common
  import Decimal

  // ---------------------------------------------------------------------
  // Inside a span: `[name?][class:]body`
  // ---------------------------------------------------------------------

  /** The character class `[a-zA-Z0-9]`. */
  predicate IsAlnum(c: char) {
    'a' <= c <= 'z' || 'A' <= c <= 'Z' || '0' <= c <= '9'
  }

  predicate AlnumString(s: string) {
    forall i :: 0 <= i < |s| ==> IsAlnum(s[i])
  }

  /** Length of the longest prefix of `s` made of `[a-zA-Z0-9]`. */
  function AlnumRun(s: string): (n: nat)
    ensures n <= |s|
  {
    AlnumRunFrom(s, 0)
  }

  /** Where the run of `[a-zA-Z0-9]` going on from position `i` ends. */
  function AlnumRunFrom(s: string, i: nat): (n: nat)
    requires i <= |s|
    ensures i <= n <= |s|
    decreases |s| - i
  {
    if i == |s| || !IsAlnum(s[i]) then i else AlnumRunFrom(s, i + 1)
  }

  lemma {:induction false} AlnumRunFromSpec(s: string, i: nat)
    requires i <= |s|
    ensures var n := AlnumRunFrom(s, i);
      (forall k :: i <= k < n ==> IsAlnum(s[k])) && (n < |s| ==> !IsAlnum(s[n]))
    decreases |s| - i
  {
    if i < |s| && IsAlnum(s[i]) {
      AlnumRunFromSpec(s, i + 1);
    }
  }

  /** The run is maximal: alphanumeric up to its end, and not at it. */
  lemma {:induction false} AlnumRunSpec(s: string)
    ensures var n := AlnumRun(s);
      AlnumString(s[..n]) && (n < |s| ==> !IsAlnum(s[n]))
  {
    AlnumRunFromSpec(s, 0);
  }

  /** Conversely, a run that stops at a non-alphanumeric character is the
    * run AlnumRunFrom finds. */
  lemma {:induction false} AlnumRunFromAt(s: string, i: nat, n: nat)
    requires i <= n < |s| && !IsAlnum(s[n])
    requires forall k :: i <= k < n ==> IsAlnum(s[k])
    ensures AlnumRunFrom(s, i) == n
    decreases n - i
  {
    if i < n {
      AlnumRunFromAt(s, i + 1, n);
    }
  }

  /** Whether the group `([a-zA-Z0-9]*)<marker>` matches at the front of `s`. */
  predicate StartsGroup(s: string, marker: char) {
    var n := AlnumRun(s);
    n < |s| && s[n] == marker
  }

  /** The optional group `((?P<g>[a-zA-Z0-9]*)<marker>)?` at the front of `s`:
    * the group's text, if it matched, and what follows it. */
  function TakeGroup(s: string, marker: char): (Option<string>, string)
  {
    var n := AlnumRun(s);
    if StartsGroup(s, marker) then (Some(s[..n]), s[n + 1..]) else (None, s)
  }

  /** The groups of one match: `tt` (None when the `?` group did not take
    * part), `cls` (likewise for `:`), and `body`. */
  datatype Markup = Markup(tt: Option<string>, cls: Option<string>, body: string)

  function ParseMarkup(content: string): Markup
  {
    var (tt, rest) := TakeGroup(content, '?');
    var (cls, body) := TakeGroup(rest, ':');
    Markup(tt, cls, body)
  }

  /** The text an optional group matched, marker included. */
  function GroupText(g: Option<string>, marker: char): string
  {
    match g case Some(n) => n + [marker] case None => ""
  }

  /** The text a `Markup` is read from. */
  function Unparse(m: Markup): string
  {
    GroupText(m.tt, '?') + GroupText(m.cls, ':') + m.body
  }

  lemma {:induction false} TakeGroupSplits(s: string, marker: char)
    ensures GroupText(TakeGroup(s, marker).0, marker) + TakeGroup(s, marker).1 == s
  {
    var n := AlnumRun(s);
    if StartsGroup(s, marker) {
      assert s == s[..n] + [marker] + s[n + 1..];
    }
  }

  /** The prefix parse loses nothing: the groups put back together give the
    * content again. */
  lemma {:induction false} ParseUnparse(content: string)
    ensures Unparse(ParseMarkup(content)) == content
  {
    TakeGroupSplits(content, '?');
    TakeGroupSplits(TakeGroup(content, '?').1, ':');
  }

  predicate BarFree(s: string) {
    '|' !in s
  }

  /** What a match of the expression can produce: alphanumeric names and
    * classes, a body without `|`, and no group left out that the text
    * after it would have matched. */
  predicate ValidMarkup(m: Markup)
  {
    && (m.tt.Some? ==> AlnumString(m.tt.value))
    && (m.cls.Some? ==> AlnumString(m.cls.value))
    && BarFree(m.body)
    && (m.cls.None? ==> !StartsGroup(m.body, ':'))
    && (m.tt.None? ==> !StartsGroup(GroupText(m.cls, ':') + m.body, '?'))
  }

  lemma {:induction false} TakeGroupParts(s: string, marker: char)
    ensures var g := TakeGroup(s, marker);
      && (g.0.Some? ==> AlnumString(g.0.value))
      && (g.0.None? ==> !StartsGroup(s, marker) && g.1 == s)
      && |g.1| <= |s| && g.1 == s[|s| - |g.1|..]
  {
    var n := AlnumRun(s);
    AlnumRunSpec(s);
    if StartsGroup(s, marker) {
      assert |s| - |s[n + 1..]| == n + 1;
    }
  }

  lemma {:induction false} NoBarInSuffix(s: string, k: nat)
    requires BarFree(s) && k <= |s|
    ensures BarFree(s[k..])
  {
  }

  /** Every bar-free content parses to a markup the expression can
    * produce. */
  lemma {:induction false} ParseMarkupValid(content: string)
    requires BarFree(content)
    ensures ValidMarkup(ParseMarkup(content))
  {
    var (tt, rest) := TakeGroup(content, '?');
    TakeGroupParts(content, '?');
    NoBarInSuffix(content, |content| - |rest|);
    var (cls, body) := TakeGroup(rest, ':');
    TakeGroupParts(rest, ':');
    NoBarInSuffix(rest, |rest| - |body|);
    TakeGroupSplits(rest, ':');
  }

  lemma {:induction false} TakeGroupOf(name: string, marker: char, rest: string)
    requires AlnumString(name) && !IsAlnum(marker)
    ensures TakeGroup(name + [marker] + rest, marker) == (Some(name), rest)
  {
    var s := name + [marker] + rest;
    AlnumRunFromAt(s, 0, |name|);
    assert s[..|name|] == name;
    assert s[|name| + 1..] == rest;
  }

  /** Reading back the text of a valid markup gives the markup: parsing
    * and unparsing are inverse on what the expression can produce. */
  lemma {:induction false} UnparseParse(m: Markup)
    requires ValidMarkup(m)
    ensures ParseMarkup(Unparse(m)) == m
  {
    var after := GroupText(m.cls, ':') + m.body;
    match m.tt {
      case Some(name) =>
        assert Unparse(m) == name + ['?'] + after;
        TakeGroupOf(name, '?', after);
      case None =>
        assert Unparse(m) == after;
    }
    match m.cls {
      case Some(c) =>
        TakeGroupOf(c, ':', m.body);
      case None =>
        assert after == m.body;
    }
  }

  // ---------------------------------------------------------------------
  // Rendering one span
  // ---------------------------------------------------------------------

  /** The `id` attribute of a span, given the anonymous counter. */
  function IdAttr(m: Markup, anon: nat): string
  {
    match m.tt
    case None => ""
    case Some(name) =>
      if name == "" then " id=\"troubadour_tooltip__" + Decimal.Show(anon) + "\""
      else " id=\"troubadour_tooltip_" + name + "\""
  }

  /** The tooltip label a span declares, given the anonymous counter. */
  function Labels(m: Markup, anon: nat): seq<string>
  {
    match m.tt
    case None => []
    case Some(name) => if name == "" then ["_" + Decimal.Show(anon)] else [name]
  }

  /** Only an anonymous tooltip (`|?...|`) advances the counter. */
  function Advance(m: Markup): nat
  {
    if m.tt == Some("") then 1 else 0
  }

  /** The `class` attribute, present only for a non-empty class. */
  function ClassAttr(m: Markup): string
  {
    if m.cls.Some? && m.cls.value != "" then " class=\"" + m.cls.value + "\"" else ""
  }

  /** `<span ` + class attribute + id attribute + `>body</span>`. */
  function SpanHtml(m: Markup, anon: nat): string
  {
    "<span " + ClassAttr(m) + IdAttr(m, anon) + ">" + m.body + "</span>"
  }

  // ---------------------------------------------------------------------
  // Pairing the bars
  // ---------------------------------------------------------------------

  /** Where the next match lies: the first bar of `s` and the first bar
    * after it, if `s` has two bars. */
  datatype Pair = Pair(open: nat, close: nat)

  function FindPair(s: string): (r: Option<Pair>)
    ensures r.Some? ==> r.value.open < r.value.close < |s|
  {
    match IndexFrom(s, '|', 0)
    case None => None
    case Some(i) =>
      match IndexFrom(s, '|', i + 1)
      case None => None
      case Some(j) => Some(Pair(i, j))
  }

  /** FindPair finds the first bar and the first bar after it, and finds
    * nothing exactly when no bar is followed by another. */
  lemma {:induction false} FindPairSpec(s: string)
    ensures var r := FindPair(s);
      && (r.Some? ==>
        && s[r.value.open] == '|' && s[r.value.close] == '|'
        && (forall k :: 0 <= k < r.value.open ==> s[k] != '|')
        && (forall k :: r.value.open < k < r.value.close ==> s[k] != '|'))
      && (r.None? ==> forall a, b :: 0 <= a < b < |s| && s[a] == '|' ==> s[b] != '|')
  {
    IndexFromSpec(s, '|', 0);
    match IndexFrom(s, '|', 0)
    case None =>
    case Some(i) =>
      IndexFromSpec(s, '|', i + 1);
  }

  /** Conversely, the first bar and the first bar after it are what
    * FindPair finds. */
  lemma {:induction false} FindPairAt(s: string, open: nat, close: nat)
    requires open < close < |s| && s[open] == '|' && s[close] == '|'
    requires forall k :: 0 <= k < open ==> s[k] != '|'
    requires forall k :: open < k < close ==> s[k] != '|'
    ensures FindPair(s) == Some(Pair(open, close))
  {
    FindPairSpec(s);
  }

  /** The input cut at its bars, paired left to right: text, then the
    * groups of the match between a pair of bars, and so on, ending with
    * the text after the last pair, which holds any unpaired bar. */
  datatype Pieces = Last(text: string) | Piece(before: string, span: Markup, rest: Pieces)

  function Tokenize(s: string): Pieces
    decreases |s|
  {
    match FindPair(s)
    case None => Last(s)
    case Some(p) => Piece(s[..p.open], ParseMarkup(s[p.open + 1..p.close]), Tokenize(s[p.close + 1..]))
  }

  lemma {:induction false} TokenizePair(s: string, p: Pair)
    requires FindPair(s) == Some(p)
    ensures Tokenize(s) == Piece(s[..p.open], ParseMarkup(s[p.open + 1..p.close]), Tokenize(s[p.close + 1..]))
  {
  }

  function Untokenize(t: Pieces): string
  {
    match t
    case Last(text) => text
    case Piece(before, span, rest) => before + "|" + Unparse(span) + "|" + Untokenize(rest)
  }

  lemma {:induction false} SplitAtPair(s: string, open: nat, close: nat)
    requires open < close < |s| && s[open] == '|' && s[close] == '|'
    ensures s == s[..open] + "|" + s[open + 1..close] + "|" + s[close + 1..]
  {
    assert s == s[..open] + s[open..];
    assert s[open..] == [s[open]] + s[open + 1..];
    assert s[open + 1..] == s[open + 1..close] + s[close..];
    assert s[close..] == [s[close]] + s[close + 1..];
  }

  /** Tokenizing loses nothing: the pieces put back together are the input. */
  lemma {:induction false} TokenizeRoundTrip(s: string)
    ensures Untokenize(Tokenize(s)) == s
    decreases |s|
  {
    var found := FindPair(s);
    if found.Some? {
      var p := found.value;
      TokenizeRoundTrip(s[p.close + 1..]);
      TokenizePair(s, p);
      FindPairSpec(s);
      ParseUnparse(s[p.open + 1..p.close]);
      SplitAtPair(s, p.open, p.close);
    }
  }

  lemma {:induction false} BarFreeSlice(s: string, i: nat, j: nat)
    requires i <= j <= |s|
    requires forall k :: i <= k < j ==> s[k] != '|'
    ensures BarFree(s[i..j])
  {
  }

  /** The shape Tokenize produces: no bar before a span, valid groups in
    * it, and no two bars in the trailing text. */
  predicate WellPaired(t: Pieces)
  {
    match t
    case Last(text) => FindPair(text).None?
    case Piece(before, span, rest) => BarFree(before) && ValidMarkup(span) && WellPaired(rest)
  }

  lemma {:induction false} FindPairPieces(s: string, p: Pair)
    requires FindPair(s) == Some(p)
    ensures BarFree(s[..p.open]) && BarFree(s[p.open + 1..p.close])
  {
    FindPairSpec(s);
    BarFreeSlice(s, 0, p.open);
    BarFreeSlice(s, p.open + 1, p.close);
  }

  /** Tokenize pairs bars left to right: what lies before a span holds no
    * bar, what lies inside it is a valid match, and the trailing text
    * holds at most one bar. */
  lemma {:induction false} TokenizeWellPaired(s: string)
    ensures WellPaired(Tokenize(s))
    decreases |s|
  {
    var found := FindPair(s);
    if found.Some? {
      var p := found.value;
      TokenizeWellPaired(s[p.close + 1..]);
      TokenizePair(s, p);
      FindPairPieces(s, p);
      ParseMarkupValid(s[p.open + 1..p.close]);
    }
  }

  /** A text starting with a pair of bars, with no bar before or between
    * them, is cut at that pair. */
  lemma {:induction false} FirstPair(before: string, content: string, rest: string)
    requires BarFree(before) && BarFree(content)
    ensures Tokenize(before + "|" + content + "|" + rest) == Piece(before, ParseMarkup(content), Tokenize(rest))
  {
    var s := before + "|" + content + "|" + rest;
    var open, close := |before|, |before| + 1 + |content|;
    CutAtPair(before, content, rest);
    FirstBars(before, content, rest);
    TokenizeAt(s, open, close, before, content, rest);
  }

  /** The first two bars cut a text into the text before them, a match and
    * the rest. */
  lemma {:induction false} TokenizeAt(s: string, open: nat, close: nat, before: string, content: string, rest: string)
    requires open < close < |s| && s[open] == '|' && s[close] == '|'
    requires forall k :: 0 <= k < open ==> s[k] != '|'
    requires forall k :: open < k < close ==> s[k] != '|'
    requires s[..open] == before && s[open + 1..close] == content && s[close + 1..] == rest
    ensures Tokenize(s) == Piece(before, ParseMarkup(content), Tokenize(rest))
  {
    FindPairAt(s, open, close);
    TokenizePair(s, Pair(open, close));
  }

  /** In `before|content|rest` with no bar in `before` or `content`, the two
    * bars shown are the first two. */
  lemma {:induction false} FirstBars(before: string, content: string, rest: string)
    requires BarFree(before) && BarFree(content)
    ensures var s := before + "|" + content + "|" + rest;
      var open, close := |before|, |before| + 1 + |content|;
      && (forall k :: 0 <= k < open ==> s[k] != '|')
      && (forall k :: open < k < close ==> s[k] != '|')
  {
    var s := before + "|" + content + "|" + rest;
    var open, close := |before|, |before| + 1 + |content|;
    forall k | 0 <= k < open ensures s[k] != '|' {
      assert s[k] == before[k];
    }
    forall k | open < k < close ensures s[k] != '|' {
      assert s[k] == content[k - open - 1];
    }
  }

  /** The parts of `before|content|rest`, by position. */
  lemma {:induction false} CutAtPair(before: string, content: string, rest: string)
    ensures var s := before + "|" + content + "|" + rest;
      var open, close := |before|, |before| + 1 + |content|;
      && |s| == close + 1 + |rest|
      && s[..open] == before && s[open] == '|'
      && s[open + 1..close] == content && s[close] == '|'
      && s[close + 1..] == rest
  {
    var s := before + "|" + content + "|" + rest;
    var open, close := |before|, |before| + 1 + |content|;
    assert s == before + ("|" + (content + ("|" + rest)));
  }

  lemma {:induction false} UnparseBarFree(m: Markup)
    requires ValidMarkup(m)
    ensures BarFree(Unparse(m))
  {
    var u := Unparse(m);
    forall k | 0 <= k < |u| ensures u[k] != '|' {
      var g1, g2 := GroupText(m.tt, '?'), GroupText(m.cls, ':');
      if k < |g1| {
        assert u[k] == g1[k];
        if k < |g1| - 1 {
          assert IsAlnum(m.tt.value[k]);
        }
      } else if k < |g1| + |g2| {
        assert u[k] == g2[k - |g1|];
        if k - |g1| < |g2| - 1 {
          assert IsAlnum(m.cls.value[k - |g1|]);
        }
      } else {
        assert u[k] == m.body[k - |g1| - |g2|];
      }
    }
  }

  /** Tokenize is the only way to cut a text into well-paired pieces:
    * tokenizing the text of well-paired pieces gives those pieces back. */
  lemma {:induction false} UntokenizeRoundTrip(t: Pieces)
    requires WellPaired(t)
    ensures Tokenize(Untokenize(t)) == t
  {
    match t
    case Last(text) =>
    case Piece(before, span, rest) =>
      UntokenizeRoundTrip(rest);
      UnparseBarFree(span);
      FirstPair(before, Unparse(span), Untokenize(rest));
      UnparseParse(span);
  }

  // ---------------------------------------------------------------------
  // The whole result
  // ---------------------------------------------------------------------

  /** HTML and labels of the pieces, the anonymous counter at `anon`. */
  function Render(t: Pieces, anon: nat): (string, seq<string>)
  {
    match t
    case Last(text) => (text, [])
    case Piece(before, m, rest) =>
      var r := Render(rest, anon + Advance(m));
      (before + (SpanHtml(m, anon) + r.0), Labels(m, anon) + r.1)
  }

  /** What `troubadownify(input)` returns: the HTML and the tooltip labels. */
  function Translate(input: string): (string, seq<string>)
  {
    Render(Tokenize(input), 0)
  }

  // ---------------------------------------------------------------------
  // The scan as the source runs it
  // ---------------------------------------------------------------------

  /** The loop's invariant: what has been emitted so far, followed by the
    * rendering of the pieces still to go (the counter at `anon`), is the
    * whole result. */
  ghost predicate Emits(output: string, tooltips: seq<string>, todo: Pieces, anon: nat, total: (string, seq<string>))
  {
    var r := Render(todo, anon);
    total == (output + r.0, tooltips + r.1)
  }

  /** The scan starts with nothing emitted and the whole input to go. */
  lemma {:induction false} ScanStart(input: string)
    ensures Emits("", [], Tokenize(input), 0, Translate(input))
  {
    var r := Translate(input);
    assert "" + r.0 == r.0;
    assert [] + r.1 == r.1;
  }

  lemma {:induction false} Regroup<T>(o: seq<T>, a: seq<T>, b: seq<T>, r: seq<T>)
    ensures (o + a) + b + r == o + (a + (b + r))
  {
  }

  lemma {:induction false} Assoc<T>(a: seq<T>, b: seq<T>, c: seq<T>)
    ensures (a + b) + c == a + (b + c)
  {
  }

  /** One step: emitting the text before the next span, then the span, with
    * the counter moving on, keeps the invariant. */
  lemma {:induction false} EmitsStep(output: string, tooltips: seq<string>, before: string, m: Markup, rest: Pieces,
                                     anon: nat, total: (string, seq<string>), output': string, tooltips': seq<string>, anon': nat)
    requires Emits(output, tooltips, Piece(before, m, rest), anon, total)
    requires output' == output + before + SpanHtml(m, anon)
    requires tooltips' == tooltips + Labels(m, anon) && anon' == anon + Advance(m)
    ensures Emits(output', tooltips', rest, anon', total)
  {
    var r := Render(rest, anon');
    Regroup(output, before, SpanHtml(m, anon), r.0);
    Assoc(tooltips, Labels(m, anon), r.1);
  }

  /** The last step: the text after the last span ends the output. */
  lemma {:induction false} EmitsLast(output: string, tooltips: seq<string>, text: string, anon: nat, total: (string, seq<string>))
    requires Emits(output, tooltips, Last(text), anon, total)
    ensures (output + text, tooltips) == total
  {
    assert tooltips + [] == tooltips;
  }

  /** A match at the cursor: the pieces from the cursor on are the text
    * before it, its groups, and the pieces from after it on. */
  lemma {:induction false} ScanStep(input: string, cursor: nat, p: Pair)
    requires cursor <= |input| && FindPair(input[cursor..]) == Some(p)
    ensures var s := input[cursor..];
      Tokenize(s) == Piece(s[..p.open], ParseMarkup(s[p.open + 1..p.close]), Tokenize(input[cursor + p.close + 1..]))
  {
    var s := input[cursor..];
    TokenizePair(s, p);
    assert input[cursor + p.close + 1..] == s[p.close + 1..];
  }

  /** The body of the loop for one match: `<span `, the class attribute
    * when the class is non-empty, the id attribute and label when a
    * tooltip marker is present (an anonymous one takes the counter and
    * advances it), then `>body</span>`. */
  method EmitSpan(m: Markup, anon: nat) returns (span: string, labels: seq<string>, next: nat)
    ensures span == SpanHtml(m, anon) && labels == Labels(m, anon) && next == anon + Advance(m)
  {
    span := "<span ";
    labels := [];
    next := anon;
    if m.cls.Some? && m.cls.value != "" {
      span := span + " class=\"" + m.cls.value + "\"";
    }
    assert span == "<span " + ClassAttr(m);
    match m.tt {
      case None =>
      case Some(name) =>
        if name == "" {
          labels := labels + ["_" + Decimal.Show(next)];
          span := span + " id=\"troubadour_tooltip__" + Decimal.Show(next) + "\"";
          next := next + 1;
        } else {
          labels := labels + [name];
          span := span + " id=\"troubadour_tooltip_" + name + "\"";
        }
    }
    assert span == "<span " + ClassAttr(m) + IdAttr(m, anon);
    span := span + ">" + m.body + "</span>";
  }

  /** The body of the loop for one match: copy the text before it, then
    * emit its span. */
  method EmitPiece(output: string, tooltips: seq<string>, anon: nat, before: string, m: Markup,
                   ghost rest: Pieces, ghost total: (string, seq<string>))
    returns (output': string, tooltips': seq<string>, anon': nat)
    requires Emits(output, tooltips, Piece(before, m, rest), anon, total)
    ensures Emits(output', tooltips', rest, anon', total)
  {
    var span, labels;
    span, labels, anon' := EmitSpan(m, anon);
    output' := output + before + span;
    tooltips' := tooltips + labels;
    EmitsStep(output, tooltips, before, m, rest, anon, total, output', tooltips', anon');
  }

  /** The next match of the expression at or after the cursor, as
    * `re.finditer` yields it: the text before it, its groups, and where it
    * ends; or no match, the rest being plain text. */
  method NextMatch(input: string, cursor: nat) returns (found: bool, before: string, m: Markup, next: nat)
    requires cursor <= |input|
    ensures found ==> cursor < next <= |input| && Tokenize(input[cursor..]) == Piece(before, m, Tokenize(input[next..]))
    ensures !found ==> Tokenize(input[cursor..]) == Last(input[cursor..])
  {
    var s := input[cursor..];
    var r := FindPair(s);
    if r.None? {
      return false, s, Markup(None, None, ""), cursor;
    }
    var p := r.value;
    ScanStep(input, cursor, p);
    found, before, m, next := true, s[..p.open], ParseMarkup(s[p.open + 1..p.close]), cursor + p.close + 1;
  }

  /** The source's loop: for each match, copy the text between the cursor
    * and the match, emit the span, and move the cursor past the match; at
    * the end copy what is left. */
  method Troubadownify(input: string) returns (output: string, tooltips: seq<string>)
    ensures (output, tooltips) == Translate(input)
  {
    output := "";
    tooltips := [];
    var cursor: nat := 0;
    var nextTt: nat := 0;
    ghost var total := Translate(input);
    ScanStart(input);
    assert input[cursor..] == input;
    while true
      invariant cursor <= |input|
      invariant Emits(output, tooltips, Tokenize(input[cursor..]), nextTt, total)
      decreases |input| - cursor
    {
      var found, before, m, next := NextMatch(input, cursor);
      if !found {
        break;
      }
      output, tooltips, nextTt := EmitPiece(output, tooltips, nextTt, before, m, Tokenize(input[next..]), total);
      cursor := next;
    }
    EmitsLast(output, tooltips, input[cursor..], nextTt, total);
    output := output + input[cursor..];
  }

  // ---------------------------------------------------------------------
  // Properties
  // ---------------------------------------------------------------------

  /** Without a bar there is no span: the text comes back unchanged and no
    * tooltip is declared. */
  lemma {:induction false} NoBarIsIdentity(input: string)
    requires BarFree(input)
    ensures Translate(input) == (input, [])
  {
    IndexFromSpec(input, '|', 0);
  }

  /** A bar with no partner after it, and everything after it, is copied
    * verbatim; it declares nothing. */
  lemma {:induction false} UnpairedBarIsText(before: string, tail: string, anon: nat)
    requires BarFree(before) && BarFree(tail)
    ensures Render(Tokenize(before + "|" + tail), anon) == (before + "|" + tail, [])
  {
    var s := before + "|" + tail;
    forall k | 0 <= k < |before| ensures s[k] != '|' {
      assert s[k] == before[k];
    }
    IndexFromAt(s, '|', 0, |before|);
    forall k | |before| + 1 <= k < |s| ensures s[k] != '|' {
      assert s[k] == tail[k - |before| - 1];
    }
    IndexFromNone(s, '|', |before| + 1);
  }

  /** Text before a span is copied, then comes the span's HTML, then the
    * translation of the rest, with the counter moved on past an anonymous
    * tooltip; the span's label, if any, comes before the rest's labels. */
  lemma {:induction false} SpanInText(before: string, m: Markup, rest: string, anon: nat)
    requires BarFree(before) && ValidMarkup(m)
    ensures var r := Render(Tokenize(rest), anon + Advance(m));
      Render(Tokenize(before + "|" + Unparse(m) + "|" + rest), anon)
        == (before + SpanHtml(m, anon) + r.0, Labels(m, anon) + r.1)
  {
    UnparseBarFree(m);
    FirstPair(before, Unparse(m), rest);
    UnparseParse(m);
    RenderPiece(Tokenize(before + "|" + Unparse(m) + "|" + rest), before, m, Tokenize(rest), anon);
  }

  lemma {:induction false} RenderPiece(t: Pieces, before: string, m: Markup, rest: Pieces, anon: nat)
    requires t == Piece(before, m, rest)
    ensures var r := Render(rest, anon + Advance(m));
      Render(t, anon) == (before + SpanHtml(m, anon) + r.0, Labels(m, anon) + r.1)
  {
    var r := Render(rest, anon + Advance(m));
    Assoc(before, SpanHtml(m, anon), r.0);
  }

  // Labels, counted against the spans that carry a `?` marker

  /** The spans, in order. */
  function Spans(t: Pieces): seq<Markup>
  {
    match t
    case Last(_) => []
    case Piece(_, m, rest) => [m] + Spans(rest)
  }

  /** The spans that declare a tooltip (named or anonymous), in order. */
  function TooltipSpans(ms: seq<Markup>): (tts: seq<Markup>)
    ensures |tts| <= |ms|
  {
    if ms == [] then []
    else (if ms[0].tt.Some? then [ms[0]] else []) + TooltipSpans(ms[1..])
  }

  /** How many anonymous tooltips there are among `ms`. */
  function AnonCount(ms: seq<Markup>): nat
  {
    if ms == [] then 0 else Advance(ms[0]) + AnonCount(ms[1..])
  }

  /** The label the i-th tooltip span gets: its own name, or `_k` where k
    * counts the anonymous tooltips before it. */
  function ExpectedLabel(tts: seq<Markup>, i: nat, anon: nat): string
    requires i < |tts| && tts[i].tt.Some?
  {
    var name := tts[i].tt.value;
    if name == "" then "_" + Decimal.Show(anon + AnonCount(tts[..i])) else name
  }

  lemma {:induction false} AnonCountAppend(a: seq<Markup>, b: seq<Markup>)
    ensures AnonCount(a + b) == AnonCount(a) + AnonCount(b)
  {
    if a == [] {
      assert a + b == b;
    } else {
      assert (a + b)[1..] == a[1..] + b;
      AnonCountAppend(a[1..], b);
    }
  }

  lemma {:induction false} TooltipSpansMarked(ms: seq<Markup>)
    ensures forall i :: 0 <= i < |TooltipSpans(ms)| ==> TooltipSpans(ms)[i].tt.Some?
  {
    if ms != [] {
      TooltipSpansMarked(ms[1..]);
    }
  }

  lemma {:induction false} LabelsCons(m: Markup, rest: seq<Markup>, labels: seq<string>, anon: nat)
    requires m.tt.Some?
    requires |labels| == |rest| && forall i :: 0 <= i < |rest| ==> rest[i].tt.Some?
    requires forall i :: 0 <= i < |rest| ==> labels[i] == ExpectedLabel(rest, i, anon + Advance(m))
    ensures var tts := [m] + rest;
      forall i :: 0 <= i < |tts| ==> tts[i].tt.Some? && (Labels(m, anon) + labels)[i] == ExpectedLabel(tts, i, anon)
  {
    var tts := [m] + rest;
    forall i | 0 <= i < |tts|
      ensures tts[i].tt.Some? && (Labels(m, anon) + labels)[i] == ExpectedLabel(tts, i, anon)
    {
      if i == 0 {
        assert tts[..0] == [];
      } else {
        assert tts[i] == rest[i - 1];
        assert tts[..i] == [m] + rest[..i - 1];
        AnonCountAppend([m], rest[..i - 1]);
        assert [m][1..] == [];
      }
    }
  }

  lemma {:induction false} RenderLabels(before: string, m: Markup, rest: Pieces, anon: nat)
    ensures Render(Piece(before, m, rest), anon).1 == Labels(m, anon) + Render(rest, anon + Advance(m)).1
  {
  }

  /** One label per span that carries a `?` marker, in order of appearance:
    * a named tooltip's label is its name, and anonymous tooltips are
    * labelled `_0`, `_1`, ... from the counter, named ones not counting. */
  lemma {:induction false} LabelsFollowTooltipSpans(t: Pieces, anon: nat)
    ensures var labels := Render(t, anon).1;
      var tts := TooltipSpans(Spans(t));
      && |labels| == |tts|
      && forall i :: 0 <= i < |tts| ==> tts[i].tt.Some? && labels[i] == ExpectedLabel(tts, i, anon)
  {
    match t
    case Last(_) =>
    case Piece(before, m, rest) =>
      LabelsFollowTooltipSpans(rest, anon + Advance(m));
      if m.tt.Some? {
        LabelsMarkedStep(before, m, rest, anon);
      } else {
        LabelsUnmarkedStep(before, m, rest, anon);
      }
  }

  /** The step of LabelsFollowTooltipSpans for a span without a marker. */
  lemma {:induction false} LabelsUnmarkedStep(before: string, m: Markup, rest: Pieces, anon: nat)
    requires m.tt.None?
    ensures Render(Piece(before, m, rest), anon).1 == Render(rest, anon).1
    ensures TooltipSpans(Spans(Piece(before, m, rest))) == TooltipSpans(Spans(rest))
  {
    var ms := Spans(Piece(before, m, rest));
    assert ms[1..] == Spans(rest);
    RenderLabels(before, m, rest, anon);
    assert Labels(m, anon) + Render(rest, anon).1 == Render(rest, anon).1;
  }

  /** The step of LabelsFollowTooltipSpans for a span with a `?` marker. */
  lemma {:induction false} LabelsMarkedStep(before: string, m: Markup, rest: Pieces, anon: nat)
    requires m.tt.Some?
    requires var labels := Render(rest, anon + Advance(m)).1;
      var tts := TooltipSpans(Spans(rest));
      && |labels| == |tts|
      && forall i :: 0 <= i < |tts| ==> tts[i].tt.Some? && labels[i] == ExpectedLabel(tts, i, anon + Advance(m))
    ensures var t := Piece(before, m, rest);
      var labels := Render(t, anon).1;
      var tts := TooltipSpans(Spans(t));
      && |labels| == |tts|
      && forall i :: 0 <= i < |tts| ==> tts[i].tt.Some? && labels[i] == ExpectedLabel(tts, i, anon)
  {
    var ms := Spans(Piece(before, m, rest));
    assert ms[1..] == Spans(rest);
    RenderLabels(before, m, rest, anon);
    assert TooltipSpans(ms) == [m] + TooltipSpans(Spans(rest));
    TooltipSpansMarked(Spans(rest));
    LabelsCons(m, TooltipSpans(Spans(rest)), Render(rest, anon + Advance(m)).1, anon);
  }

  /** Over the whole input: as many labels as spans with a `?` marker. */
  lemma {:induction false} LabelCount(input: string)
    ensures |Translate(input).1| == |TooltipSpans(Spans(Tokenize(input)))|
  {
    LabelsFollowTooltipSpans(Tokenize(input), 0);
  }
}
