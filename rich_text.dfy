/**
 * RichText: a template string with classes, an optional tooltip, and
 * positional and keyword arguments that are themselves RichTexts.
 *
 * The builders copy the receiver and change the copy, so they are functions
 * on values here. `render` substitutes the rendered arguments into the
 * template, wraps the result in a `<span>` when the node has classes or a
 * tooltip, and collects a map from tooltip anchor ids to tooltip HTML. It
 * draws one id per tooltip-bearing node from the shared counter and appends
 * "tooltip" to that node's own class list; the model returns the tree with
 * those class lists updated. `RenderNode` is the specification and the
 * recursive method `Render` is the loop the source runs, proved against it.
 */
module RichTexts {
  import opened Common
  import Decimal
  import StrFormat
  import Ids

  datatype RichText = RichText(
    text: string,
    classes: seq<string>,
    tooltip: Option<RichText>,
    args: seq<RichText>,
    kwargs: seq<Kwarg>)

  /** One entry of the keyword-argument dictionary, in insertion order. */
  datatype Kwarg = Kwarg(key: string, value: RichText)

  /** What `make_rich_text` accepts: a `str`, a RichText, or any other value,
    * given by its `str()`. */
  datatype Value = Str(s: string) | Rich(r: RichText) | Other(shown: string)

  /** A node with nothing but its text. */
  function Bare(s: string): RichText
  {
    RichText(s, [], None, [], [])
  }

  /** `make_rich_text`: a RichText is returned as it is, anything else
    * becomes a bare node holding its text. */
  function MakeRichText(v: Value): (r: RichText)
    ensures v.Rich? ==> r == v.r
    ensures !v.Rich? ==> r.classes == [] && r.tooltip == None && r.args == [] && r.kwargs == []
    ensures v.Str? ==> r.text == v.s
    ensures v.Other? ==> r.text == v.shown
  {
    match v
    case Str(s) => Bare(s)
    case Rich(r) => r
    case Other(shown) => Bare(shown)
  }

  // ---------------------------------------------------------------------
  // Builders
  // ---------------------------------------------------------------------

  /** `classes(*cs)`: a copy with `cs` after the existing classes. */
  function Classes(t: RichText, cs: seq<string>): (r: RichText)
    ensures r.classes == t.classes + cs
    ensures r.(classes := t.classes) == t
  {
    t.(classes := t.classes + cs)
  }

  /** `tooltip(v)`: a copy whose tooltip is `make_rich_text(v)`. */
  function WithTooltip(t: RichText, v: Value): (r: RichText)
    ensures r.tooltip == Some(MakeRichText(v))
    ensures r.(tooltip := t.tooltip) == t
  {
    t.(tooltip := Some(MakeRichText(v)))
  }

  /** The keyword arguments' keys, in insertion order. */
  function Keys(kws: seq<Kwarg>): (ks: seq<string>)
    ensures |ks| == |kws|
    ensures forall i :: 0 <= i < |kws| ==> ks[i] == kws[i].key
  {
    if kws == [] then [] else Keys(kws[..|kws| - 1]) + [kws[|kws| - 1].key]
  }

  /** `d[key]`, if present (the first entry with that key). */
  function Lookup(kws: seq<Kwarg>, key: string): Option<RichText>
  {
    if kws == [] then None
    else if kws[0].key == key then Some(kws[0].value)
    else Lookup(kws[1..], key)
  }

  /** `d[key] = v`: an existing key keeps its place and takes the new value,
    * a new key goes at the end. */
  function Assign(kws: seq<Kwarg>, key: string, v: RichText): seq<Kwarg>
  {
    if kws == [] then [Kwarg(key, v)]
    else if kws[0].key == key then [Kwarg(key, v)] + kws[1..]
    else [kws[0]] + Assign(kws[1..], key, v)
  }

  /** The positional arguments `format` adds. */
  function MakeAll(vs: seq<Value>): (rs: seq<RichText>)
    ensures |rs| == |vs|
    ensures forall i :: 0 <= i < |vs| ==> rs[i] == MakeRichText(vs[i])
  {
    if vs == [] then [] else MakeAll(vs[..|vs| - 1]) + [MakeRichText(vs[|vs| - 1])]
  }

  /** The keyword arguments after `format` has assigned each pair in turn. */
  function AssignAll(kws: seq<Kwarg>, pairs: seq<(string, Value)>): seq<Kwarg>
  {
    if pairs == [] then kws
    else
      var last := pairs[|pairs| - 1];
      Assign(AssignAll(kws, pairs[..|pairs| - 1]), last.0, MakeRichText(last.1))
  }

  /** `format(*args, **kwargs)` on a copy of `t`. */
  function Formatted(t: RichText, args: seq<Value>, kwargs: seq<(string, Value)>): RichText
  {
    t.(args := t.args + MakeAll(args), kwargs := AssignAll(t.kwargs, kwargs))
  }

  /** The builder as the source runs it: copy, then append each positional
    * argument, then assign each keyword argument. */
  method Format(t: RichText, args: seq<Value>, kwargs: seq<(string, Value)>) returns (r: RichText)
    ensures r == Formatted(t, args, kwargs)
  {
    r := t;
    var i := 0;
    while i < |args|
      invariant i <= |args|
      invariant r == t.(args := t.args + MakeAll(args[..i]))
    {
      assert args[..i + 1][..i] == args[..i];
      r := r.(args := r.args + [MakeRichText(args[i])]);
      i := i + 1;
    }
    assert args[..i] == args;
    var j := 0;
    while j < |kwargs|
      invariant j <= |kwargs|
      invariant r == t.(args := t.args + MakeAll(args), kwargs := AssignAll(t.kwargs, kwargs[..j]))
    {
      assert kwargs[..j + 1][..j] == kwargs[..j];
      r := r.(kwargs := Assign(r.kwargs, kwargs[j].0, MakeRichText(kwargs[j].1)));
      j := j + 1;
    }
    assert kwargs[..j] == kwargs;
  }

  // ---------------------------------------------------------------------
  // Properties of the builders
  // ---------------------------------------------------------------------

  /** A dictionary never holds a key twice. */
  predicate DistinctKeys(kws: seq<Kwarg>)
  {
    forall i, j :: 0 <= i < j < |kws| ==> kws[i].key != kws[j].key
  }

  /** After `d[key] = v`, `d[key]` is `v`. */
  lemma {:induction false} AssignFound(kws: seq<Kwarg>, key: string, v: RichText)
    ensures Lookup(Assign(kws, key, v), key) == Some(v)
  {
    if kws != [] && kws[0].key != key {
      AssignFound(kws[1..], key, v);
      assert ([kws[0]] + Assign(kws[1..], key, v))[1..] == Assign(kws[1..], key, v);
    }
  }

  /** `d[key] = v` leaves every other key's value alone. */
  lemma {:induction false} AssignOthers(kws: seq<Kwarg>, key: string, v: RichText, other: string)
    requires other != key
    ensures Lookup(Assign(kws, key, v), other) == Lookup(kws, other)
  {
    if kws == [] {
      assert Lookup([Kwarg(key, v)][1..], other) == None;
    } else if kws[0].key == key {
      assert ([Kwarg(key, v)] + kws[1..])[1..] == kws[1..];
    } else {
      AssignOthers(kws[1..], key, v, other);
      assert ([kws[0]] + Assign(kws[1..], key, v))[1..] == Assign(kws[1..], key, v);
    }
  }

  lemma {:induction false} KeysCons(first: Kwarg, rest: seq<Kwarg>)
    ensures Keys([first] + rest) == [first.key] + Keys(rest)
  {
    var kws := [first] + rest;
    assert forall i :: 0 < i < |kws| ==> kws[i] == rest[i - 1];
  }

  /** `d[key] = v` keeps the insertion order: an existing key stays where
    * it is, a new key comes last. */
  lemma {:induction false} AssignKeys(kws: seq<Kwarg>, key: string, v: RichText)
    ensures Keys(Assign(kws, key, v)) == if key in Keys(kws) then Keys(kws) else Keys(kws) + [key]
  {
    if kws == [] {
    } else if kws[0].key == key {
      KeysCons(kws[0], kws[1..]);
      KeysCons(Kwarg(key, v), kws[1..]);
      assert [kws[0]] + kws[1..] == kws;
    } else {
      var rest := kws[1..];
      assert [kws[0]] + rest == kws;
      AssignKeys(rest, key, v);
      KeysCons(kws[0], rest);
      KeysCons(kws[0], Assign(rest, key, v));
      assert key in Keys(kws) <==> key in Keys(rest);
      if key !in Keys(rest) {
        assert [kws[0].key] + (Keys(rest) + [key]) == ([kws[0].key] + Keys(rest)) + [key];
      }
    }
  }

  lemma {:induction false} AssignDistinct(kws: seq<Kwarg>, key: string, v: RichText)
    requires DistinctKeys(kws)
    ensures DistinctKeys(Assign(kws, key, v))
  {
    AssignKeys(kws, key, v);
    var r := Assign(kws, key, v);
    forall i, j | 0 <= i < j < |r|
      ensures r[i].key != r[j].key
    {
      assert Keys(r)[i] == r[i].key && Keys(r)[j] == r[j].key;
      if j >= |kws| {
        assert key !in Keys(kws);
        assert Keys(kws)[i] == kws[i].key;
      } else {
        assert Keys(kws)[i] == kws[i].key && Keys(kws)[j] == kws[j].key;
      }
    }
  }

  /** The value the last pair with `key` carries, if any. */
  function LastValue(pairs: seq<(string, Value)>, key: string): Option<Value>
  {
    if pairs == [] then None
    else if pairs[|pairs| - 1].0 == key then Some(pairs[|pairs| - 1].1)
    else LastValue(pairs[..|pairs| - 1], key)
  }

  /** After `format(**kwargs)` a key holds the RichText of its last
    * assignment, or its old value when `kwargs` does not mention it. */
  lemma {:induction false} FormattedLookup(kws: seq<Kwarg>, pairs: seq<(string, Value)>, key: string)
    ensures Lookup(AssignAll(kws, pairs), key)
      == match LastValue(pairs, key)
         case Some(v) => Some(MakeRichText(v))
         case None => Lookup(kws, key)
  {
    if pairs != [] {
      var init := pairs[..|pairs| - 1];
      var last := pairs[|pairs| - 1];
      if last.0 == key {
        AssignFound(AssignAll(kws, init), key, MakeRichText(last.1));
      } else {
        FormattedLookup(kws, init, key);
        AssignOthers(AssignAll(kws, init), last.0, MakeRichText(last.1), key);
      }
    }
  }

  /** `d[key] = v` never moves the keys already there. */
  lemma {:induction false} AssignKeepsPrefix(kws: seq<Kwarg>, key: string, v: RichText)
    ensures |kws| <= |Assign(kws, key, v)| && Keys(Assign(kws, key, v))[..|kws|] == Keys(kws)
  {
    AssignKeys(kws, key, v);
  }

  /** `format` keeps the existing keyword arguments first and in their
    * order, and never duplicates a key. */
  lemma {:induction false} FormattedKeys(kws: seq<Kwarg>, pairs: seq<(string, Value)>)
    requires DistinctKeys(kws)
    ensures var r := AssignAll(kws, pairs);
      DistinctKeys(r) && |kws| <= |r| && Keys(r)[..|kws|] == Keys(kws)
  {
    if pairs != [] {
      var init := pairs[..|pairs| - 1];
      var last := pairs[|pairs| - 1];
      var before := AssignAll(kws, init);
      FormattedKeys(kws, init);
      AssignKeepsPrefix(before, last.0, MakeRichText(last.1));
      AssignDistinct(before, last.0, MakeRichText(last.1));
      PrefixOfPrefix(Keys(Assign(before, last.0, MakeRichText(last.1))), Keys(before), |kws|);
    }
  }

  lemma {:induction false} PrefixOfPrefix<T>(a: seq<T>, b: seq<T>, n: nat)
    requires n <= |b| <= |a| && a[..|b|] == b
    ensures a[..n] == b[..n]
  {
    assert a[..n] == a[..|b|][..n];
  }

  /** `format(*args)` appends its arguments after the existing ones. */
  lemma {:induction false} FormattedArgs(t: RichText, args: seq<Value>, kwargs: seq<(string, Value)>)
    ensures var r := Formatted(t, args, kwargs);
      |r.args| == |t.args| + |args|
      && r.args[..|t.args|] == t.args
      && forall i :: 0 <= i < |args| ==> r.args[|t.args| + i] == MakeRichText(args[i])
  {
    var r := Formatted(t, args, kwargs);
    assert r.args[..|t.args|] == t.args;
  }

  // ---------------------------------------------------------------------
  // Rendering: the specification
  // ---------------------------------------------------------------------

  /** The tooltip map: anchor id to tooltip HTML. */
  type Tips = map<string, string>

  /** The anchor id of tooltip number `id`. */
  function TooltipKey(id: nat): string
  {
    "troubadour_tooltip_" + Decimal.Show(id)
  }

  /** The span's attributes: the id attribute (if any), then the class
    * attribute when the class list is non-empty. */
  function Params(idParam: string, classes: seq<string>): string
  {
    idParam + (if classes != [] then " class=\"" + Join(classes, " ") + "\"" else "")
  }

  /** The substituted text, wrapped in a span when there are attributes. */
  function Wrap(body: string, params: string): string
  {
    if params != "" then "<span" + params + ">" + body + "</span>" else body
  }

  /** The Markdown pass (`mistune.html`), given as a parameter, applied only
    * when asked. */
  function Finish(s: string, markdown: bool, md: string -> string): string
  {
    if markdown then md(s) else s
  }

  /** What one `render` call produces: the HTML and the tooltip map, or the
    * error `str.format` raised; the node as it is afterwards (class lists of
    * the tooltip-bearing nodes reached have grown); and the counter. */
  datatype Outcome = Outcome(result: Result<(string, Tips), StrFormat.FormatError>, node: RichText, next: nat)

  /** The same for a list of arguments rendered in turn: their texts, the
    * tooltip maps merged, the arguments afterwards, and the counter. */
  datatype ArgsOutcome = ArgsOutcome(result: Result<(seq<string>, Tips), StrFormat.FormatError>, nodes: seq<RichText>, next: nat)

  datatype KwargsOutcome = KwargsOutcome(result: Result<(map<string, string>, Tips), StrFormat.FormatError>, nodes: seq<Kwarg>, next: nat)

  /** `render(markdown)` with the counter at `next`. */
  function RenderNode(t: RichText, markdown: bool, md: string -> string, next: nat): Outcome
    decreases t
  {
    var a := RenderArgs(t.args, md, next);
    var t1 := t.(args := a.nodes);
    match a.result
    case Failure(e) => Outcome(Failure(e), t1, a.next)
    case Success((texts, tips1)) =>
      var k := RenderKwargs(t.kwargs, md, a.next);
      var t2 := t1.(kwargs := k.nodes);
      match k.result
      case Failure(e) => Outcome(Failure(e), t2, k.next)
      case Success((named, tips2)) =>
        match StrFormat.Format(t.text, texts, named)
        case Failure(e) => Outcome(Failure(e), t2, k.next)
        case Success(body) =>
          match t.tooltip
          case None =>
            Outcome(Success((Finish(Wrap(body, Params("", t.classes)), markdown, md), tips1 + tips2)), t2, k.next)
          case Some(tip) =>
            TooltipOutcome(t2, body, tips1 + tips2, k.next, markdown, md, RenderNode(tip, true, md, k.next + 1))
  }

  /** The end of `render` for a node with a tooltip, given the outcome
    * `sub` of rendering the tooltip with the id `id` taken: the node
    * gains the class "tooltip" and the rendered tooltip; on success the
    * span carries the anchor of `id` and the tooltip's HTML goes into the
    * map under that anchor. */
  function TooltipOutcome(t2: RichText, body: string, tips: Tips, id: nat, markdown: bool, md: string -> string, sub: Outcome): Outcome
  {
    var classes := t2.classes + ["tooltip"];
    var t3 := t2.(classes := classes, tooltip := Some(sub.node));
    match sub.result
    case Failure(e) => Outcome(Failure(e), t3, sub.next)
    case Success((html, tips3)) =>
      var params := Params(" id=\"" + TooltipKey(id) + "\"", classes);
      Outcome(Success((Finish(Wrap(body, params), markdown, md), tips[TooltipKey(id) := html] + tips3)), t3, sub.next)
  }

  /** The positional arguments rendered in order with `render(False)`; the
    * first error stops the loop, leaving the later arguments untouched. */
  function RenderArgs(ts: seq<RichText>, md: string -> string, next: nat): (o: ArgsOutcome)
    ensures |o.nodes| == |ts|
    decreases ts
  {
    if ts == [] then ArgsOutcome(Success(([], map[])), [], next)
    else
      var p := RenderArgs(ts[..|ts| - 1], md, next);
      var last := ts[|ts| - 1];
      match p.result
      case Failure(e) => ArgsOutcome(Failure(e), p.nodes + [last], p.next)
      case Success((texts, tips)) =>
        var o := RenderNode(last, false, md, p.next);
        match o.result
        case Failure(e) => ArgsOutcome(Failure(e), p.nodes + [o.node], o.next)
        case Success((html, more)) => ArgsOutcome(Success((texts + [html], tips + more)), p.nodes + [o.node], o.next)
  }

  /** The keyword arguments rendered in insertion order with `render(False)`. */
  function RenderKwargs(kws: seq<Kwarg>, md: string -> string, next: nat): (o: KwargsOutcome)
    ensures |o.nodes| == |kws|
    decreases kws
  {
    if kws == [] then KwargsOutcome(Success((map[], map[])), [], next)
    else
      var p := RenderKwargs(kws[..|kws| - 1], md, next);
      var last := kws[|kws| - 1];
      assert last.value < last;
      match p.result
      case Failure(e) => KwargsOutcome(Failure(e), p.nodes + [last], p.next)
      case Success((named, tips)) =>
        var o := RenderNode(last.value, false, md, p.next);
        var node := Kwarg(last.key, o.node);
        match o.result
        case Failure(e) => KwargsOutcome(Failure(e), p.nodes + [node], o.next)
        case Success((html, more)) => KwargsOutcome(Success((named[last.key := html], tips + more)), p.nodes + [node], o.next)
  }

  // ---------------------------------------------------------------------
  // Rendering as the source runs it
  // ---------------------------------------------------------------------

  lemma {:induction false} MergeAssoc(a: Tips, b: Tips, c: Tips)
    ensures (a + b) + c == a + (b + c)
  {
  }

  /** One more positional argument rendered. */
  lemma {:induction false} ArgsSnoc(ts: seq<RichText>, i: nat, md: string -> string, next: nat)
    requires i < |ts|
    requires RenderArgs(ts[..i], md, next).result.Success?
    ensures var p := RenderArgs(ts[..i], md, next);
      var o := RenderNode(ts[i], false, md, p.next);
      RenderArgs(ts[..i + 1], md, next)
        == if o.result.Success?
           then ArgsOutcome(Success((p.result.value.0 + [o.result.value.0], p.result.value.1 + o.result.value.1)), p.nodes + [o.node], o.next)
           else ArgsOutcome(Failure(o.result.error), p.nodes + [o.node], o.next)
  {
    assert ts[..i + 1][..i] == ts[..i];
  }

  /** After an error the remaining positional arguments are not rendered. */
  lemma {:induction false} ArgsStopAtError(ts: seq<RichText>, k: nat, md: string -> string, next: nat)
    requires k <= |ts| && RenderArgs(ts[..k], md, next).result.Failure?
    ensures var p := RenderArgs(ts[..k], md, next);
      RenderArgs(ts, md, next) == ArgsOutcome(p.result, p.nodes + ts[k..], p.next)
    decreases |ts| - k
  {
    var p := RenderArgs(ts[..k], md, next);
    if k == |ts| {
      assert ts[..k] == ts;
      assert p.nodes + ts[k..] == p.nodes;
    } else {
      assert ts[..k + 1][..k] == ts[..k];
      assert RenderArgs(ts[..k + 1], md, next) == ArgsOutcome(p.result, p.nodes + [ts[k]], p.next);
      ArgsStopAtError(ts, k + 1, md, next);
      assert (p.nodes + [ts[k]]) + ts[k + 1..] == p.nodes + ts[k..];
    }
  }

  /** One more keyword argument rendered. */
  lemma {:induction false} KwargsSnoc(kws: seq<Kwarg>, j: nat, md: string -> string, next: nat)
    requires j < |kws|
    requires RenderKwargs(kws[..j], md, next).result.Success?
    ensures var p := RenderKwargs(kws[..j], md, next);
      var o := RenderNode(kws[j].value, false, md, p.next);
      var node := Kwarg(kws[j].key, o.node);
      RenderKwargs(kws[..j + 1], md, next)
        == if o.result.Success?
           then KwargsOutcome(Success((p.result.value.0[kws[j].key := o.result.value.0], p.result.value.1 + o.result.value.1)), p.nodes + [node], o.next)
           else KwargsOutcome(Failure(o.result.error), p.nodes + [node], o.next)
  {
    assert kws[..j + 1][..j] == kws[..j];
  }

  /** After an error the remaining keyword arguments are not rendered. */
  lemma {:induction false} KwargsStopAtError(kws: seq<Kwarg>, k: nat, md: string -> string, next: nat)
    requires k <= |kws| && RenderKwargs(kws[..k], md, next).result.Failure?
    ensures var p := RenderKwargs(kws[..k], md, next);
      RenderKwargs(kws, md, next) == KwargsOutcome(p.result, p.nodes + kws[k..], p.next)
    decreases |kws| - k
  {
    var p := RenderKwargs(kws[..k], md, next);
    if k == |kws| {
      assert kws[..k] == kws;
      assert p.nodes + kws[k..] == p.nodes;
    } else {
      assert kws[..k + 1][..k] == kws[..k];
      assert RenderKwargs(kws[..k + 1], md, next) == KwargsOutcome(p.result, p.nodes + [kws[k]], p.next);
      KwargsStopAtError(kws, k + 1, md, next);
      assert (p.nodes + [kws[k]]) + kws[k + 1..] == p.nodes + kws[k..];
    }
  }

  /** Each way `render` can end, stated on the intermediate outcomes. */
  lemma {:induction false} NodeArgsFailed(t: RichText, markdown: bool, md: string -> string, next: nat, a: ArgsOutcome)
    requires a == RenderArgs(t.args, md, next) && a.result.Failure?
    ensures RenderNode(t, markdown, md, next) == Outcome(Failure(a.result.error), t.(args := a.nodes), a.next)
  {
  }

  lemma {:induction false} NodeKwargsFailed(t: RichText, markdown: bool, md: string -> string, next: nat, a: ArgsOutcome, k: KwargsOutcome)
    requires a == RenderArgs(t.args, md, next) && a.result.Success?
    requires k == RenderKwargs(t.kwargs, md, a.next) && k.result.Failure?
    ensures RenderNode(t, markdown, md, next) == Outcome(Failure(k.result.error), t.(args := a.nodes, kwargs := k.nodes), k.next)
  {
  }

  lemma {:induction false} NodeFormatFailed(t: RichText, markdown: bool, md: string -> string, next: nat, a: ArgsOutcome, k: KwargsOutcome)
    requires a == RenderArgs(t.args, md, next) && a.result.Success?
    requires k == RenderKwargs(t.kwargs, md, a.next) && k.result.Success?
    requires StrFormat.Format(t.text, a.result.value.0, k.result.value.0).Failure?
    ensures RenderNode(t, markdown, md, next)
      == Outcome(Failure(StrFormat.Format(t.text, a.result.value.0, k.result.value.0).error), t.(args := a.nodes, kwargs := k.nodes), k.next)
  {
  }

  lemma {:induction false} NodeWithoutTooltip(t: RichText, markdown: bool, md: string -> string, next: nat, a: ArgsOutcome, k: KwargsOutcome, body: string)
    requires a == RenderArgs(t.args, md, next) && a.result.Success?
    requires k == RenderKwargs(t.kwargs, md, a.next) && k.result.Success?
    requires StrFormat.Format(t.text, a.result.value.0, k.result.value.0) == Success(body)
    requires t.tooltip.None?
    ensures RenderNode(t, markdown, md, next)
      == Outcome(Success((Finish(Wrap(body, Params("", t.classes)), markdown, md), a.result.value.1 + k.result.value.1)),
                 t.(args := a.nodes, kwargs := k.nodes), k.next)
  {
  }

  lemma {:induction false} NodeWithTooltip(t: RichText, markdown: bool, md: string -> string, next: nat, a: ArgsOutcome, k: KwargsOutcome, body: string)
    requires a == RenderArgs(t.args, md, next) && a.result.Success?
    requires k == RenderKwargs(t.kwargs, md, a.next) && k.result.Success?
    requires StrFormat.Format(t.text, a.result.value.0, k.result.value.0) == Success(body)
    requires t.tooltip.Some?
    ensures RenderNode(t, markdown, md, next)
      == TooltipOutcome(t.(args := a.nodes, kwargs := k.nodes), body, a.result.value.1 + k.result.value.1, k.next, markdown, md,
                        RenderNode(t.tooltip.value, true, md, k.next + 1))
  {
  }

  lemma {:induction false} NodeTooltipFailed(t: RichText, markdown: bool, md: string -> string, next: nat, a: ArgsOutcome, k: KwargsOutcome, body: string, sub: Outcome)
    requires a == RenderArgs(t.args, md, next) && a.result.Success?
    requires k == RenderKwargs(t.kwargs, md, a.next) && k.result.Success?
    requires StrFormat.Format(t.text, a.result.value.0, k.result.value.0) == Success(body)
    requires t.tooltip.Some? && sub == RenderNode(t.tooltip.value, true, md, k.next + 1) && sub.result.Failure?
    ensures RenderNode(t, markdown, md, next)
      == Outcome(Failure(sub.result.error), t.(args := a.nodes, kwargs := k.nodes, classes := t.classes + ["tooltip"], tooltip := Some(sub.node)), sub.next)
  {
    NodeWithTooltip(t, markdown, md, next, a, k, body);
  }

  lemma {:induction false} NodeTooltipRendered(t: RichText, markdown: bool, md: string -> string, next: nat, a: ArgsOutcome, k: KwargsOutcome, body: string, sub: Outcome)
    requires a == RenderArgs(t.args, md, next) && a.result.Success?
    requires k == RenderKwargs(t.kwargs, md, a.next) && k.result.Success?
    requires StrFormat.Format(t.text, a.result.value.0, k.result.value.0) == Success(body)
    requires t.tooltip.Some? && sub == RenderNode(t.tooltip.value, true, md, k.next + 1) && sub.result.Success?
    ensures var html := Finish(Wrap(body, Params(" id=\"" + TooltipKey(k.next) + "\"", t.classes + ["tooltip"])), markdown, md);
      var tips := (a.result.value.1 + k.result.value.1)[TooltipKey(k.next) := sub.result.value.0] + sub.result.value.1;
      RenderNode(t, markdown, md, next)
        == Outcome(Success((html, tips)), t.(args := a.nodes, kwargs := k.nodes, classes := t.classes + ["tooltip"], tooltip := Some(sub.node)), sub.next)
  {
    NodeWithTooltip(t, markdown, md, next, a, k, body);
  }

  /** The attribute string built up as the source does, the span around
    * the text, and the Markdown pass. */
  method Decorate(body: string, idParam: string, classes: seq<string>, markdown: bool, md: string -> string)
    returns (html: string)
    ensures html == Finish(Wrap(body, Params(idParam, classes)), markdown, md)
  {
    var htmlParams := idParam;
    if classes != [] {
      htmlParams := htmlParams + (" class=\"" + Join(classes, " ") + "\"");
    } else {
      assert idParam + "" == idParam;
    }
    html := body;
    if htmlParams != "" {
      html := "<span" + htmlParams + ">" + html + "</span>";
    }
    if markdown {
      html := md(html);
    }
  }

  /** The loop over the positional arguments, each rendered with
    * `render(False)` and its tooltip map merged in. */
  method RenderEach(ts: seq<RichText>, md: string -> string, ids: Ids.IdCounter)
    returns (result: Result<(seq<string>, Tips), StrFormat.FormatError>, nodes: seq<RichText>)
    modifies ids
    ensures RenderArgs(ts, md, old(ids.next)) == ArgsOutcome(result, nodes, ids.next)
    decreases ts
  {
    ghost var start := ids.next;
    var tips: Tips := map[];
    var texts: seq<string> := [];
    nodes := [];
    var i := 0;
    while i < |ts|
      invariant i <= |ts|
      invariant RenderArgs(ts[..i], md, start) == ArgsOutcome(Success((texts, tips)), nodes, ids.next)
    {
      ArgsSnoc(ts, i, md, start);
      var r, n := Render(ts[i], false, md, ids);
      if r.Failure? {
        ArgsStopAtError(ts, i + 1, md, start);
        return Failure(r.error), nodes + [n] + ts[i + 1..];
      }
      texts := texts + [r.value.0];
      tips := tips + r.value.1;
      nodes := nodes + [n];
      i := i + 1;
    }
    assert ts[..i] == ts;
    result := Success((texts, tips));
  }

  /** The loop over the keyword arguments, in insertion order. */
  method RenderEachKeyword(kws: seq<Kwarg>, md: string -> string, ids: Ids.IdCounter)
    returns (result: Result<(map<string, string>, Tips), StrFormat.FormatError>, nodes: seq<Kwarg>)
    modifies ids
    ensures RenderKwargs(kws, md, old(ids.next)) == KwargsOutcome(result, nodes, ids.next)
    decreases kws
  {
    ghost var start := ids.next;
    var tips: Tips := map[];
    var named: map<string, string> := map[];
    nodes := [];
    var j := 0;
    while j < |kws|
      invariant j <= |kws|
      invariant RenderKwargs(kws[..j], md, start) == KwargsOutcome(Success((named, tips)), nodes, ids.next)
    {
      KwargsSnoc(kws, j, md, start);
      assert kws[j].value < kws[j];
      var r, n := Render(kws[j].value, false, md, ids);
      if r.Failure? {
        KwargsStopAtError(kws, j + 1, md, start);
        return Failure(r.error), nodes + [Kwarg(kws[j].key, n)] + kws[j + 1..];
      }
      named := named[kws[j].key := r.value.0];
      tips := tips + r.value.1;
      nodes := nodes + [Kwarg(kws[j].key, n)];
      j := j + 1;
    }
    assert kws[..j] == kws;
    result := Success((named, tips));
  }

  /** `render(markdown)`: the arguments rendered with `render(False)`, their
    * tooltip maps merged; the texts substituted into the template; for a
    * tooltip, "tooltip" appended to the class list, an id drawn and the
    * tooltip rendered with Markdown; the span; the Markdown pass. */
  method Render(t: RichText, markdown: bool, md: string -> string, ids: Ids.IdCounter)
    returns (result: Result<(string, Tips), StrFormat.FormatError>, node: RichText)
    modifies ids
    ensures RenderNode(t, markdown, md, old(ids.next)) == Outcome(result, node, ids.next)
    decreases t
  {
    ghost var start := ids.next;
    var argsResult, args := RenderEach(t.args, md, ids);
    ghost var a := ArgsOutcome(argsResult, args, ids.next);
    if argsResult.Failure? {
      NodeArgsFailed(t, markdown, md, start, a);
      return Failure(argsResult.error), t.(args := args);
    }
    var texts := argsResult.value.0;
    var tips := argsResult.value.1;
    var kwargsResult, kwargs := RenderEachKeyword(t.kwargs, md, ids);
    ghost var k := KwargsOutcome(kwargsResult, kwargs, ids.next);
    if kwargsResult.Failure? {
      NodeKwargsFailed(t, markdown, md, start, a, k);
      return Failure(kwargsResult.error), t.(args := args, kwargs := kwargs);
    }
    var named := kwargsResult.value.0;
    tips := tips + kwargsResult.value.1;
    var formatted := StrFormat.Format(t.text, texts, named);
    if formatted.Failure? {
      NodeFormatFailed(t, markdown, md, start, a, k);
      return Failure(formatted.error), t.(args := args, kwargs := kwargs);
    }
    var body := formatted.value;
    if t.tooltip.None? {
      NodeWithoutTooltip(t, markdown, md, start, a, k, body);
      var html := Decorate(body, "", t.classes, markdown, md);
      return Success((html, tips)), t.(args := args, kwargs := kwargs);
    }
    var classes := t.classes + ["tooltip"];
    var id := ids.Fresh();
    var sub, subNode := Render(t.tooltip.value, true, md, ids);
    node := t.(args := args, kwargs := kwargs, classes := classes, tooltip := Some(subNode));
    if sub.Failure? {
      NodeTooltipFailed(t, markdown, md, start, a, k, body, Outcome(sub, subNode, ids.next));
      return Failure(sub.error), node;
    }
    NodeTooltipRendered(t, markdown, md, start, a, k, body, Outcome(sub, subNode, ids.next));
    var html := Decorate(body, " id=\"" + TooltipKey(id) + "\"", classes, markdown, md);
    result := Success((html, tips[TooltipKey(id) := sub.value.0] + sub.value.1));
  }

  // ---------------------------------------------------------------------
  // Properties of rendering: tooltip ids
  // ---------------------------------------------------------------------

  /** How many tooltip-bearing nodes a render reaches; each draws one id. */
  function TooltipCount(t: RichText): nat
    decreases t
  {
    (match t.tooltip case Some(tip) => 1 + TooltipCount(tip) case None => 0)
      + ArgsCount(t.args) + KwargsCount(t.kwargs)
  }

  function ArgsCount(ts: seq<RichText>): nat
    decreases ts
  {
    if ts == [] then 0 else ArgsCount(ts[..|ts| - 1]) + TooltipCount(ts[|ts| - 1])
  }

  function KwargsCount(kws: seq<Kwarg>): nat
    decreases kws
  {
    if kws == [] then 0
    else
      var last := kws[|kws| - 1];
      assert last.value < last;
      KwargsCount(kws[..|kws| - 1]) + TooltipCount(last.value)
  }

  /** The anchor ids of tooltips number `lo` up to `hi - 1`. */
  function KeyRange(lo: nat, hi: nat): set<string>
  {
    set i: nat | lo <= i < hi :: TooltipKey(i)
  }

  /** Distinct counter values give distinct anchor ids. */
  lemma {:induction false} KeyInjective(i: nat, j: nat)
    requires TooltipKey(i) == TooltipKey(j)
    ensures i == j
  {
    var prefix := "troubadour_tooltip_";
    assert (prefix + Decimal.Show(i))[|prefix|..] == Decimal.Show(i);
    assert (prefix + Decimal.Show(j))[|prefix|..] == Decimal.Show(j);
    Decimal.ShowInjective(i, j);
  }

  lemma {:induction false} KeyRangeSplit(a: nat, b: nat, c: nat)
    requires a <= b <= c
    ensures KeyRange(a, b) + KeyRange(b, c) == KeyRange(a, c)
  {
  }

  lemma {:induction false} KeyRangeExtend(a: nat, b: nat)
    requires a <= b
    ensures KeyRange(a, b) + {TooltipKey(b)} == KeyRange(a, b + 1)
  {
  }

  /** `hi - lo` consecutive ids give `hi - lo` distinct anchors. */
  lemma {:induction false} KeyRangeSize(lo: nat, hi: nat)
    requires lo <= hi
    ensures |KeyRange(lo, hi)| == hi - lo
    decreases hi - lo
  {
    if lo == hi {
      assert KeyRange(lo, hi) == {};
    } else {
      KeyRangeSize(lo, hi - 1);
      KeyRangeExtend(lo, hi - 1);
      if TooltipKey(hi - 1) in KeyRange(lo, hi - 1) {
        var i: nat :| lo <= i < hi - 1 && TooltipKey(i) == TooltipKey(hi - 1);
        KeyInjective(i, hi - 1);
      }
    }
  }

  lemma {:induction false} MergedKeys(t1: Tips, t2: Tips, a: nat, b: nat, c: nat)
    requires a <= b <= c && t1.Keys == KeyRange(a, b) && t2.Keys == KeyRange(b, c)
    ensures (t1 + t2).Keys == KeyRange(a, c)
  {
    KeyRangeSplit(a, b, c);
  }

  lemma {:induction false} TooltipKeys(t12: Tips, html: string, t3: Tips, a: nat, id: nat, c: nat)
    requires a <= id < c && t12.Keys == KeyRange(a, id) && t3.Keys == KeyRange(id + 1, c)
    ensures (t12[TooltipKey(id) := html] + t3).Keys == KeyRange(a, c)
  {
    KeyRangeExtend(a, id);
    KeyRangeSplit(a, id + 1, c);
  }

  /** A render draws exactly one id per tooltip-bearing node, in one
    * consecutive block, and its tooltip map has exactly the anchors of
    * those ids: nothing is left out and nothing overwritten. Whatever the
    * outcome, the counter never goes back. */
  lemma {:induction false} NodeIds(t: RichText, markdown: bool, md: string -> string, next: nat)
    ensures var o := RenderNode(t, markdown, md, next);
      next <= o.next
      && (o.result.Success? ==> o.next == next + TooltipCount(t) && o.result.value.1.Keys == KeyRange(next, o.next))
    decreases t, 1
  {
    var a := RenderArgs(t.args, md, next);
    ArgsIds(t.args, md, next);
    if a.result.Failure? {
      NodeArgsFailed(t, markdown, md, next, a);
      return;
    }
    var k := RenderKwargs(t.kwargs, md, a.next);
    KwargsIds(t.kwargs, md, a.next);
    if k.result.Failure? {
      NodeKwargsFailed(t, markdown, md, next, a, k);
      return;
    }
    var f := StrFormat.Format(t.text, a.result.value.0, k.result.value.0);
    if f.Failure? {
      NodeFormatFailed(t, markdown, md, next, a, k);
      return;
    }
    MergedKeys(a.result.value.1, k.result.value.1, next, a.next, k.next);
    if t.tooltip.None? {
      NodeWithoutTooltip(t, markdown, md, next, a, k, f.value);
      return;
    }
    TooltipNodeIds(t, markdown, md, next, a, k, f.value);
  }

  /** `NodeIds` for a node with a tooltip, given the facts for its
    * arguments. */
  lemma {:induction false} TooltipNodeIds(t: RichText, markdown: bool, md: string -> string, next: nat, a: ArgsOutcome, k: KwargsOutcome, body: string)
    requires a == RenderArgs(t.args, md, next) && a.result.Success?
    requires a.next == next + ArgsCount(t.args) && a.result.value.1.Keys == KeyRange(next, a.next)
    requires k == RenderKwargs(t.kwargs, md, a.next) && k.result.Success?
    requires k.next == a.next + KwargsCount(t.kwargs) && k.result.value.1.Keys == KeyRange(a.next, k.next)
    requires StrFormat.Format(t.text, a.result.value.0, k.result.value.0) == Success(body)
    requires t.tooltip.Some?
    ensures var o := RenderNode(t, markdown, md, next);
      next <= o.next
      && (o.result.Success? ==> o.next == next + TooltipCount(t) && o.result.value.1.Keys == KeyRange(next, o.next))
    decreases t, 0
  {
    var sub := RenderNode(t.tooltip.value, true, md, k.next + 1);
    NodeIds(t.tooltip.value, true, md, k.next + 1);
    if sub.result.Failure? {
      NodeTooltipFailed(t, markdown, md, next, a, k, body, sub);
    } else {
      TooltipRenderedIds(t, markdown, md, next, a, k, body, sub);
    }
  }

  lemma {:induction false} TooltipRenderedIds(t: RichText, markdown: bool, md: string -> string, next: nat, a: ArgsOutcome, k: KwargsOutcome, body: string, sub: Outcome)
    requires a == RenderArgs(t.args, md, next) && a.result.Success?
    requires a.next == next + ArgsCount(t.args) && a.result.value.1.Keys == KeyRange(next, a.next)
    requires k == RenderKwargs(t.kwargs, md, a.next) && k.result.Success?
    requires k.next == a.next + KwargsCount(t.kwargs) && k.result.value.1.Keys == KeyRange(a.next, k.next)
    requires StrFormat.Format(t.text, a.result.value.0, k.result.value.0) == Success(body)
    requires t.tooltip.Some? && sub == RenderNode(t.tooltip.value, true, md, k.next + 1) && sub.result.Success?
    requires sub.next == k.next + 1 + TooltipCount(t.tooltip.value) && sub.result.value.1.Keys == KeyRange(k.next + 1, sub.next)
    ensures var o := RenderNode(t, markdown, md, next);
      o.result.Success? && o.next == next + TooltipCount(t) && o.result.value.1.Keys == KeyRange(next, o.next)
  {
    NodeTooltipRendered(t, markdown, md, next, a, k, body, sub);
    MergedKeys(a.result.value.1, k.result.value.1, next, a.next, k.next);
    TooltipKeys(a.result.value.1 + k.result.value.1, sub.result.value.0, sub.result.value.1, next, k.next, sub.next);
  }

  lemma {:induction false} ArgsIds(ts: seq<RichText>, md: string -> string, next: nat)
    ensures var o := RenderArgs(ts, md, next);
      next <= o.next
      && (o.result.Success? ==> o.next == next + ArgsCount(ts) && o.result.value.1.Keys == KeyRange(next, o.next))
    decreases ts
  {
    if ts == [] {
      assert KeyRange(next, next) == {};
    } else {
      var p := RenderArgs(ts[..|ts| - 1], md, next);
      ArgsIds(ts[..|ts| - 1], md, next);
      if p.result.Success? {
        var o := RenderNode(ts[|ts| - 1], false, md, p.next);
        NodeIds(ts[|ts| - 1], false, md, p.next);
        if o.result.Success? {
          MergedKeys(p.result.value.1, o.result.value.1, next, p.next, o.next);
        }
      }
    }
  }

  lemma {:induction false} KwargsIds(kws: seq<Kwarg>, md: string -> string, next: nat)
    ensures var o := RenderKwargs(kws, md, next);
      next <= o.next
      && (o.result.Success? ==> o.next == next + KwargsCount(kws) && o.result.value.1.Keys == KeyRange(next, o.next))
    decreases kws
  {
    if kws == [] {
      assert KeyRange(next, next) == {};
    } else {
      var last := kws[|kws| - 1];
      assert last.value < last;
      var p := RenderKwargs(kws[..|kws| - 1], md, next);
      KwargsIds(kws[..|kws| - 1], md, next);
      if p.result.Success? {
        var o := RenderNode(last.value, false, md, p.next);
        NodeIds(last.value, false, md, p.next);
        if o.result.Success? {
          MergedKeys(p.result.value.1, o.result.value.1, next, p.next, o.next);
        }
      }
    }
  }

  /** The tooltip map has one entry per tooltip in the tree. */
  lemma {:induction false} TooltipMapSize(t: RichText, markdown: bool, md: string -> string, next: nat)
    requires RenderNode(t, markdown, md, next).result.Success?
    ensures |RenderNode(t, markdown, md, next).result.value.1| == TooltipCount(t)
  {
    var o := RenderNode(t, markdown, md, next);
    NodeIds(t, markdown, md, next);
    KeyRangeSize(next, o.next);
    assert |o.result.value.1| == |o.result.value.1.Keys|;
  }

  // ---------------------------------------------------------------------
  // Properties of rendering: the tree afterwards
  // ---------------------------------------------------------------------

  /** The tree after a successful render: every tooltip-bearing node,
    * including those inside arguments and tooltips, has "tooltip" at the
    * end of its class list; nothing else differs. */
  function Marked(t: RichText): RichText
    decreases t
  {
    RichText(
      t.text,
      if t.tooltip.Some? then t.classes + ["tooltip"] else t.classes,
      match t.tooltip case Some(tip) => Some(Marked(tip)) case None => None,
      MarkedAll(t.args),
      MarkedKwargs(t.kwargs))
  }

  function MarkedAll(ts: seq<RichText>): (rs: seq<RichText>)
    ensures |rs| == |ts|
    decreases ts
  {
    if ts == [] then [] else MarkedAll(ts[..|ts| - 1]) + [Marked(ts[|ts| - 1])]
  }

  function MarkedKwargs(kws: seq<Kwarg>): (rs: seq<Kwarg>)
    ensures |rs| == |kws|
    decreases kws
  {
    if kws == [] then []
    else
      var last := kws[|kws| - 1];
      assert last.value < last;
      MarkedKwargs(kws[..|kws| - 1]) + [Kwarg(last.key, Marked(last.value))]
  }

  /** A successful render leaves the node as `Marked` describes. */
  lemma {:induction false} NodeMarked(t: RichText, markdown: bool, md: string -> string, next: nat)
    ensures var o := RenderNode(t, markdown, md, next);
      o.result.Success? ==> o.node == Marked(t)
    decreases t, 1
  {
    var a := RenderArgs(t.args, md, next);
    ArgsMarked(t.args, md, next);
    if a.result.Failure? {
      NodeArgsFailed(t, markdown, md, next, a);
      return;
    }
    var k := RenderKwargs(t.kwargs, md, a.next);
    KwargsMarked(t.kwargs, md, a.next);
    if k.result.Failure? {
      NodeKwargsFailed(t, markdown, md, next, a, k);
      return;
    }
    var f := StrFormat.Format(t.text, a.result.value.0, k.result.value.0);
    if f.Failure? {
      NodeFormatFailed(t, markdown, md, next, a, k);
      return;
    }
    if t.tooltip.None? {
      NodeWithoutTooltip(t, markdown, md, next, a, k, f.value);
      return;
    }
    TooltipNodeMarked(t, markdown, md, next, a, k, f.value);
  }

  lemma {:induction false} TooltipNodeMarked(t: RichText, markdown: bool, md: string -> string, next: nat, a: ArgsOutcome, k: KwargsOutcome, body: string)
    requires a == RenderArgs(t.args, md, next) && a.result.Success? && a.nodes == MarkedAll(t.args)
    requires k == RenderKwargs(t.kwargs, md, a.next) && k.result.Success? && k.nodes == MarkedKwargs(t.kwargs)
    requires StrFormat.Format(t.text, a.result.value.0, k.result.value.0) == Success(body)
    requires t.tooltip.Some?
    ensures var o := RenderNode(t, markdown, md, next);
      o.result.Success? ==> o.node == Marked(t)
    decreases t, 0
  {
    var sub := RenderNode(t.tooltip.value, true, md, k.next + 1);
    NodeMarked(t.tooltip.value, true, md, k.next + 1);
    if sub.result.Failure? {
      NodeTooltipFailed(t, markdown, md, next, a, k, body, sub);
    } else {
      TooltipRenderedMarked(t, markdown, md, next, a, k, body, sub);
    }
  }

  lemma {:induction false} TooltipRenderedMarked(t: RichText, markdown: bool, md: string -> string, next: nat, a: ArgsOutcome, k: KwargsOutcome, body: string, sub: Outcome)
    requires a == RenderArgs(t.args, md, next) && a.result.Success? && a.nodes == MarkedAll(t.args)
    requires k == RenderKwargs(t.kwargs, md, a.next) && k.result.Success? && k.nodes == MarkedKwargs(t.kwargs)
    requires StrFormat.Format(t.text, a.result.value.0, k.result.value.0) == Success(body)
    requires t.tooltip.Some? && sub == RenderNode(t.tooltip.value, true, md, k.next + 1)
    requires sub.result.Success? && sub.node == Marked(t.tooltip.value)
    ensures RenderNode(t, markdown, md, next).node == Marked(t)
  {
    NodeTooltipRendered(t, markdown, md, next, a, k, body, sub);
  }

  lemma {:induction false} ArgsMarked(ts: seq<RichText>, md: string -> string, next: nat)
    ensures var o := RenderArgs(ts, md, next);
      o.result.Success? ==> o.nodes == MarkedAll(ts)
    decreases ts
  {
    if ts != [] {
      var p := RenderArgs(ts[..|ts| - 1], md, next);
      ArgsMarked(ts[..|ts| - 1], md, next);
      if p.result.Success? {
        NodeMarked(ts[|ts| - 1], false, md, p.next);
      }
    }
  }

  lemma {:induction false} KwargsMarked(kws: seq<Kwarg>, md: string -> string, next: nat)
    ensures var o := RenderKwargs(kws, md, next);
      o.result.Success? ==> o.nodes == MarkedKwargs(kws)
    decreases kws
  {
    if kws != [] {
      var last := kws[|kws| - 1];
      assert last.value < last;
      var p := RenderKwargs(kws[..|kws| - 1], md, next);
      KwargsMarked(kws[..|kws| - 1], md, next);
      if p.result.Success? {
        NodeMarked(last.value, false, md, p.next);
      }
    }
  }

  /** Rendering changes the node it is called on: rendering the same node a
    * second time appends "tooltip" to its classes once more. */
  lemma {:induction false} RenderTwice(t: RichText, markdown: bool, md: string -> string, first: nat, second: nat)
    requires t.tooltip.Some?
    requires RenderNode(t, markdown, md, first).result.Success?
    requires RenderNode(RenderNode(t, markdown, md, first).node, markdown, md, second).result.Success?
    ensures RenderNode(RenderNode(t, markdown, md, first).node, markdown, md, second).node.classes
      == t.classes + ["tooltip", "tooltip"]
  {
    var once := RenderNode(t, markdown, md, first).node;
    NodeMarked(t, markdown, md, first);
    NodeMarked(once, markdown, md, second);
    assert t.classes + ["tooltip"] + ["tooltip"] == t.classes + ["tooltip", "tooltip"];
  }

  // ---------------------------------------------------------------------
  // Properties of rendering: the HTML
  // ---------------------------------------------------------------------

  /** The `markdown` flag only decides whether the finished HTML goes
    * through the Markdown pass: the arguments, the tooltip map, the tree
    * afterwards and the counter are the same either way. */
  lemma {:induction false} MarkdownIsLastStep(t: RichText, md: string -> string, next: nat)
    ensures var plain := RenderNode(t, false, md, next);
      var o := RenderNode(t, true, md, next);
      o.node == plain.node && o.next == plain.next
      && (o.result.Success? <==> plain.result.Success?)
      && (o.result.Success? ==> o.result.value == (md(plain.result.value.0), plain.result.value.1))
  {
  }

  /** Text without braces, with no classes, tooltip or arguments, renders
    * as itself: no span, no tooltip, no id drawn. */
  lemma {:induction false} PlainText(s: string, md: string -> string, next: nat)
    requires forall i :: 0 <= i < |s| ==> !StrFormat.IsBrace(s[i])
    ensures RenderNode(Bare(s), false, md, next) == Outcome(Success((s, map[])), Bare(s), next)
  {
    StrFormat.NoBracesIsIdentity(s, [], map[]);
  }

  /** A node with no class and no tooltip gets no span: its HTML is the
    * substituted text itself (through the Markdown pass when asked), and
    * its map holds its arguments' tooltips only. */
  lemma {:induction false} Unwrapped(t: RichText, markdown: bool, md: string -> string, next: nat, a: ArgsOutcome, k: KwargsOutcome, body: string)
    requires a == RenderArgs(t.args, md, next) && a.result.Success?
    requires k == RenderKwargs(t.kwargs, md, a.next) && k.result.Success?
    requires StrFormat.Format(t.text, a.result.value.0, k.result.value.0) == Success(body)
    requires t.classes == [] && t.tooltip.None?
    ensures RenderNode(t, markdown, md, next).result == Success((Finish(body, markdown, md), a.result.value.1 + k.result.value.1))
  {
    NodeWithoutTooltip(t, markdown, md, next, a, k, body);
    assert Params("", t.classes) == "";
  }

  /** With a non-empty class list the text is wrapped in a span whose
    * attributes are the id attribute, then the classes joined by spaces. */
  lemma {:induction false} SpanShape(body: string, idParam: string, classes: seq<string>)
    requires classes != []
    ensures Wrap(body, Params(idParam, classes))
      == "<span" + idParam + " class=\"" + Join(classes, " ") + "\">" + body + "</span>"
  {
    var p := Params(idParam, classes);
    assert p == idParam + (" class=\"" + Join(classes, " ") + "\"");
    assert p != "" by {
      assert |p| >= |" class=\""|;
    }
  }

  lemma {:induction false} Regroup5(p: string, a: string, key: string, b: string, c: string)
    ensures p + (a + key + b) + c == (p + a) + key + (b + c)
  {
  }

  lemma {:induction false} TooltipSpanText(key: string, cls: string, body: string)
    ensures "<span" + (" id=\"" + key + "\"") + " class=\"" + cls + "\">" + body + "</span>"
      == "<span id=\"" + key + "\" class=\"" + cls + "\">" + body + "</span>"
  {
    Regroup5("<span", " id=\"", key, "\"", " class=\"");
    assert "<span" + " id=\"" == "<span id=\"";
    assert "\"" + " class=\"" == "\" class=\"";
  }

  /** The tooltip's HTML stays under its anchor: the later tooltips have
    * other anchors. */
  lemma {:induction false} AnchorKept(before: Tips, html: string, after: Tips, id: nat, hi: nat)
    requires after.Keys == KeyRange(id + 1, hi)
    ensures TooltipKey(id) in before[TooltipKey(id) := html] + after
    ensures (before[TooltipKey(id) := html] + after)[TooltipKey(id)] == html
  {
    if TooltipKey(id) in after {
      var i: nat :| id + 1 <= i < hi && TooltipKey(i) == TooltipKey(id);
      KeyInjective(i, id);
    }
  }

  /** Classes without a tooltip give a span with only a class attribute,
    * the classes separated by spaces. */
  lemma {:induction false} ClassedText(s: string, cs: seq<string>, md: string -> string, next: nat)
    requires forall i :: 0 <= i < |s| ==> !StrFormat.IsBrace(s[i])
    requires cs != []
    ensures RenderNode(Classes(Bare(s), cs), false, md, next).result
      == Success(("<span class=\"" + Join(cs, " ") + "\">" + s + "</span>", map[]))
  {
    var t := Classes(Bare(s), cs);
    assert t.classes == cs && t.text == s && t.tooltip.None?;
    var none: Tips := map[];
    var a := RenderArgs(t.args, md, next);
    assert a == ArgsOutcome(Success(([], none)), [], next);
    var k := RenderKwargs(t.kwargs, md, next);
    assert k == KwargsOutcome(Success((map[], none)), [], next);
    StrFormat.NoBracesIsIdentity(s, [], map[]);
    NodeWithoutTooltip(t, false, md, next, a, k, s);
    SpanShape(s, "", cs);
    assert "<span" + "" + " class=\"" == "<span class=\"";
    assert none + none == none;
  }

  /** A node renders only when its arguments, its keyword arguments, its
    * text and its tooltip all do. */
  lemma {:induction false} NodeSucceeded(t: RichText, markdown: bool, md: string -> string, next: nat)
    ensures var a := RenderArgs(t.args, md, next);
      var k := RenderKwargs(t.kwargs, md, a.next);
      RenderNode(t, markdown, md, next).result.Success? ==>
        && a.result.Success? && k.result.Success?
        && StrFormat.Format(t.text, a.result.value.0, k.result.value.0).Success?
        && (t.tooltip.Some? ==> RenderNode(t.tooltip.value, true, md, k.next + 1).result.Success?)
  {
    var a := RenderArgs(t.args, md, next);
    if a.result.Failure? {
      NodeArgsFailed(t, markdown, md, next, a);
      return;
    }
    var k := RenderKwargs(t.kwargs, md, a.next);
    if k.result.Failure? {
      NodeKwargsFailed(t, markdown, md, next, a, k);
      return;
    }
    var f := StrFormat.Format(t.text, a.result.value.0, k.result.value.0);
    if f.Failure? {
      NodeFormatFailed(t, markdown, md, next, a, k);
    } else if t.tooltip.Some? {
      var sub := RenderNode(t.tooltip.value, true, md, k.next + 1);
      if sub.result.Failure? {
        NodeTooltipFailed(t, markdown, md, next, a, k, f.value, sub);
      }
    }
  }

  /** A node with a tooltip whose arguments, keyword arguments, text and
    * tooltip all render renders as a span whose id is the anchor of the
    * id drawn after its arguments' tooltips and whose class list ends with
    * "tooltip", around the formatted text; the tooltip map holds the
    * tooltip, rendered with Markdown, under that anchor. */
  lemma {:induction false} TooltipSpan(t: RichText, md: string -> string, next: nat, a: ArgsOutcome, k: KwargsOutcome, body: string, sub: Outcome)
    requires a == RenderArgs(t.args, md, next) && a.result.Success?
    requires k == RenderKwargs(t.kwargs, md, a.next) && k.result.Success?
    requires StrFormat.Format(t.text, a.result.value.0, k.result.value.0) == Success(body)
    requires t.tooltip.Some? && sub == RenderNode(t.tooltip.value, true, md, k.next + 1) && sub.result.Success?
    ensures var o := RenderNode(t, false, md, next);
      var key := TooltipKey(k.next);
      k.next == next + ArgsCount(t.args) + KwargsCount(t.kwargs)
      && o.result.Success?
      && o.result.value.0 == "<span id=\"" + key + "\" class=\"" + Join(t.classes + ["tooltip"], " ") + "\">" + body + "</span>"
      && key in o.result.value.1 && o.result.value.1[key] == sub.result.value.0
  {
    ArgsIds(t.args, md, next);
    KwargsIds(t.kwargs, md, a.next);
    NodeIds(t.tooltip.value, true, md, k.next + 1);
    NodeTooltipRendered(t, false, md, next, a, k, body, sub);
    var idParam := " id=\"" + TooltipKey(k.next) + "\"";
    SpanShape(body, idParam, t.classes + ["tooltip"]);
    TooltipSpanText(TooltipKey(k.next), Join(t.classes + ["tooltip"], " "), body);
    AnchorKept(a.result.value.1 + k.result.value.1, sub.result.value.0, sub.result.value.1, k.next, sub.next);
  }
}
