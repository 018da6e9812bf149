/**
 * The story pane's history: every command shown is recorded, newest first,
 * so that a stored game can be shown again by replaying the history
 * oldest first.
 *
 * What a command puts on the page (HTML through the scanner and Markdown,
 * the divider with the current time, the image card) is display only and
 * is not modelled; `image` still draws an id from the shared counter, and
 * `display` still translates its text, because binding the tooltips to the
 * labels it finds can raise. A command that raises has already been
 * recorded; a replay that meets one stops there.
 */
module Stories {
  import opened Common
  import Ids
  import Troubadown

  /** A recorded command, with the fields `Story` stores. */
  datatype Cmd =
    | DisplayCmd(text: string, markdown: bool, tooltips: Option<seq<string>>, namedTooltips: Option<map<string, string>>)
    | NewPageCmd
    | ImageCmd(url: string, alt: string)

  /** What binding a display's tooltips can raise: an `IndexError` when
    * there are more positional tooltips than labels in the text, a
    * `TypeError` when a named tooltip looks its label up by name in the
    * list of labels. */
  datatype Exception = IndexError | TypeError

  /** The exception issuing `cmd` raises, if any. Only a display can raise:
    * the positional tooltips are bound first, then the named ones. */
  function Raised(cmd: Cmd): (e: Option<Exception>)
    ensures e.Some? ==> cmd.DisplayCmd?
  {
    match cmd
    case DisplayCmd(text, _, tooltips, namedTooltips) =>
      if tooltips.Some? && |tooltips.value| > |Troubadown.Translate(text).1| then Some(IndexError)
      else if namedTooltips.Some? && namedTooltips.value != map[] then Some(TypeError)
      else None
    case _ => None
  }

  /** How many image commands a history holds; each draws one id when it
    * is shown. */
  function ImageCount(h: seq<Cmd>): (n: nat)
    ensures n <= |h|
  {
    if h == [] then 0 else (if h[0].ImageCmd? then 1 else 0) + ImageCount(h[1..])
  }

  lemma {:induction false} ImageCountSplit(a: seq<Cmd>, b: seq<Cmd>)
    ensures ImageCount(a + b) == ImageCount(a) + ImageCount(b)
  {
    if a == [] {
      assert a + b == b;
    } else {
      assert (a + b)[1..] == a[1..] + b;
      ImageCountSplit(a[1..], b);
    }
  }

  /** The history after replaying `h` oldest first onto an empty history:
    * each command goes back to the front, and the first command that
    * raises ends the replay after being recorded. */
  function Replayed(h: seq<Cmd>): seq<Cmd>
  {
    if h == [] then []
    else if Raised(h[|h| - 1]).Some? then [h[|h| - 1]]
    else Replayed(h[..|h| - 1]) + [h[|h| - 1]]
  }

  /** The exception that ends the replay of `h`, if any: that of the oldest
    * command that raises. */
  function ReplayError(h: seq<Cmd>): Option<Exception>
  {
    if h == [] then None
    else if Raised(h[|h| - 1]).Some? then Raised(h[|h| - 1])
    else ReplayError(h[..|h| - 1])
  }

  /** Newer commands that all go through are replayed on top of whatever
    * the older ones left. */
  lemma {:induction false} ReplayedAppend(a: seq<Cmd>, b: seq<Cmd>)
    requires forall k :: 0 <= k < |b| ==> Raised(b[k]).None?
    ensures Replayed(a + b) == Replayed(a) + b
    ensures ReplayError(a + b) == ReplayError(a)
  {
    if b == [] {
      assert a + b == a;
    } else {
      var init := b[..|b| - 1];
      assert (a + b)[..|a + b| - 1] == a + init;
      assert (a + b)[|a + b| - 1] == b[|b| - 1];
      ReplayedAppend(a, init);
      assert init + [b[|b| - 1]] == b;
    }
  }

  /** When no command raises, the replay rebuilds the whole history. */
  lemma {:induction false} ReplayRebuilds(h: seq<Cmd>)
    requires forall k :: 0 <= k < |h| ==> Raised(h[k]).None?
    ensures Replayed(h) == h && ReplayError(h) == None
  {
    ReplayedAppend([], h);
    assert [] + h == h;
  }

  /** When the oldest command that raises is `h[i]`, the replay stops
    * there: the history keeps `h[i]` and the commands older than it, every
    * newer one is lost, and the replay raises what `h[i]` raises. */
  lemma {:induction false} ReplayStopsAtOldestRaise(h: seq<Cmd>, i: nat)
    requires i < |h| && Raised(h[i]).Some?
    requires forall k :: i < k < |h| ==> Raised(h[k]).None?
    ensures Replayed(h) == h[i..] && ReplayError(h) == Raised(h[i])
  {
    var a, b := h[..i + 1], h[i + 1..];
    assert a + b == h;
    forall k | 0 <= k < |b| ensures Raised(b[k]).None? {
      assert b[k] == h[i + 1 + k];
    }
    ReplayedAppend(a, b);
    assert a[..|a| - 1] == h[..i] && a[|a| - 1] == h[i];
    assert [h[i]] + b == h[i..];
  }

  class Story {
    /** Newest command first. */
    var history: seq<Cmd>

    constructor()
      ensures history == []
    {
      history := [];
    }

    /** `display`: record the text and how to show it, translate the text,
      * then bind each positional tooltip to the label at its index and
      * each named tooltip to the label looked up by its name. */
    method Display(text: string, markdown: bool, tooltips: Option<seq<string>>, namedTooltips: Option<map<string, string>>)
      returns (raised: Option<Exception>)
      modifies this
      ensures history == [DisplayCmd(text, markdown, tooltips, namedTooltips)] + old(history)
      ensures raised == Raised(DisplayCmd(text, markdown, tooltips, namedTooltips))
    {
      history := [DisplayCmd(text, markdown, tooltips, namedTooltips)] + history;
      var html, labels := Troubadown.Troubadownify(text);
      if tooltips.Some? {
        var i := 0;
        while i < |tooltips.value|
          invariant i <= |tooltips.value| && i <= |labels|
        {
          if i >= |labels| {
            return Some(IndexError);
          }
          i := i + 1;
        }
      }
      if namedTooltips.Some? && namedTooltips.value != map[] {
        return Some(TypeError);
      }
      return None;
    }

    /** `newpage`: record a page break. */
    method NewPage()
      modifies this
      ensures history == [NewPageCmd] + old(history)
    {
      history := [NewPageCmd] + history;
    }

    /** `image`: record the image; the card shown is tagged with a fresh id. */
    method Image(url: string, alt: string, ids: Ids.IdCounter)
      modifies this, ids
      ensures history == [ImageCmd(url, alt)] + old(history)
      ensures ids.next == old(ids.next) + 1
    {
      history := [ImageCmd(url, alt)] + history;
      var id := ids.Fresh();
    }

    /** Issue a recorded command again. */
    method Replay(cmd: Cmd, ids: Ids.IdCounter) returns (raised: Option<Exception>)
      modifies this, ids
      ensures history == [cmd] + old(history)
      ensures raised == Raised(cmd)
      ensures ids.next == old(ids.next) + (if cmd.ImageCmd? then 1 else 0)
    {
      match cmd
      case DisplayCmd(text, markdown, tooltips, namedTooltips) =>
        raised := Display(text, markdown, tooltips, namedTooltips);
      case NewPageCmd =>
        NewPage();
        raised := None;
      case ImageCmd(url, alt) =>
        Image(url, alt, ids);
        raised := None;
    }

    /** The replay loop of `load_cache_data`: empty the history, then issue
      * the old commands oldest first. Each command goes back to the front,
      * so without an exception the history is rebuilt exactly as it was;
      * a command that raises ends the replay (see `Replayed`). Every image
      * replayed draws a new id. */
    method LoadCacheData(ids: Ids.IdCounter) returns (raised: Option<Exception>)
      modifies this, ids
      ensures history == Replayed(old(history))
      ensures raised == ReplayError(old(history))
      ensures ids.next == old(ids.next) + ImageCount(history)
    {
      var oldHistory := history;
      history := [];
      var i := |oldHistory|;
      while i > 0
        invariant 0 <= i <= |oldHistory|
        invariant history == oldHistory[i..]
        invariant forall k :: i <= k < |oldHistory| ==> Raised(oldHistory[k]).None?
        invariant ids.next == old(ids.next) + ImageCount(oldHistory[i..])
      {
        i := i - 1;
        assert oldHistory[i..] == [oldHistory[i]] + oldHistory[i + 1..];
        ImageCountSplit([oldHistory[i]], oldHistory[i + 1..]);
        raised := Replay(oldHistory[i], ids);
        if raised.Some? {
          ReplayStopsAtOldestRaise(oldHistory, i);
          return;
        }
      }
      ReplayRebuilds(oldHistory);
      raised := None;
    }
  }
}
