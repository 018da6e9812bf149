# troubadour, modelled in Dafny

troubadour is a small engine for text-based browser games. This project models its core:

- **Troubadown** (`troubadour/troubadown.py`) is the inline markup `|[name?][class:]body|`. Each match becomes a `<span>` with an optional class attribute and an optional tooltip anchor id. The translation also returns the list of tooltip labels the spans declare.
- **RichText** (`troubadour/rich_text.py`) is a template string with classes, an optional tooltip, and positional and keyword arguments that are RichTexts themselves. It has the copying builders `classes`, `tooltip` and `format`, plus `make_rich_text`. `render` renders the arguments, substitutes them with `str.format`, wraps the result in a span, collects the tooltip map and runs the Markdown pass.
- **The browser front end.** `troubadour/html_impl.py` and `troubadour/pyscript_impl.py` hold the same logic at different lines. From them the model takes:
  - the story history that `display`, `newpage` and `image` prepend to, and its replay in `load_cache_data`;
  - the save-slot list: `get_next_id`, `merge`, `save_game` and `delete_save`;
  - the light/dark switch `toggle_mode`;
  - the default-value rule of the text input.

  The table below cites `html_impl.py`. The same code sits in `pyscript_impl.py` at these lines:
  - `get_next_id` 124-128 and `merge` 130-136;
  - `display` 171, `newpage` 191 and `image` 197-198;
  - the text input 255-259;
  - `save_game` 318-326 and `delete_save` 332-335;
  - `toggle_mode` 415-433 and `load_cache_data` 441-457.

Modules:

- `Common` holds Option, Result, `Join` and first-occurrence search.
- `Decimal` renders a nat as decimal text, as `str(n)` does.
- `Ids` is the shared id counter behind `get_id`.
- `Troubadown` is the markup translation.
- `StrFormat` covers the subset of Python's `str.format` that templates use:
  - literal text and the escapes `{{` and `}}`;
  - automatic (`{}`), manual (`{0}`) and keyword (`{name}`) fields;
  - Python's errors for a lone brace, an unclosed field, mixed numbering, a missing index and a missing key.
- `RichTexts` is the RichText tree, its builders and `render`.
- `Stories` is the story history and its replay.
- `Saves` is the save-slot list.
- `Session` holds the colour mode and the text-input rule.

How the model is built:

- **Troubadown.** A scan of the text with one regular expression becomes `Tokenize`, a pairing of bars: no group of the expression can hold a `|`, so every match runs from one bar to the next. `Render` gives the HTML and labels of the pieces. The source's cursor loop, `Troubadownify`, is proved equal to `Translate = Render ∘ Tokenize`.
- **RichText `render`.** `RenderNode` is the recursive specification. It returns the HTML and tooltip map (or the `str.format` error), the node as it is after the call, and the counter. The method `Render` mirrors the source's loops and is proved equal to it.

### Behaviour of the code worth knowing

- **`render` changes its receiver.** On every call, when the node has a tooltip, it appends `"tooltip"` to the node's own class list (`classes = self._classes`, then `append`). A node without a tooltip keeps its class list. A second render of the same node therefore emits `class="... tooltip tooltip"`.
  - `RichTexts.RenderTwice` states this.
  - `RichTexts.NodeMarked` states the tree after one render.
- **Troubadown allocates no ids.** Tooltip ids come from the text itself (named tooltips) or from a counter that is local to one call (anonymous tooltips, `_0`, `_1`, ...).
- **`merge` renumbers the incoming saves in place.** It sets `save.nb = next_id` on the incoming objects themselves, so a save merged a second time compares equal to the copy already in the list and is skipped. Compared as values, a merged save is added again under a new number; `Saves.MergeTwiceAddsAgain` exhibits this.
- **`display` can raise, and the replay in `load_cache_data` then stops.** A positional tooltip beyond the labels the text declares raises an `IndexError`, and any named tooltip raises a `TypeError`, because the label list is indexed by the name. The command is already in the history when this happens. `Stories.ReplayStopsAtOldestRaise` states the history a replay leaves.

## Model

| member | source | states |
|---|---|---|
| Troubadown.Troubadownify | troubadour/troubadown.py:4-49 | the cursor loop over the matches returns exactly the HTML and labels of `Translate`, i.e. of the bars paired left to right |
| Troubadown.EmitSpan | troubadour/troubadown.py:28-44 | one match gives `<span`, a class attribute only for a non-empty class, an id `troubadour_tooltip__k` plus label `_k` for an anonymous tooltip (counter advances) or `troubadour_tooltip_name` plus label `name` for a named one, then `>body</span>` |
| Troubadown.NextMatch | troubadour/troubadown.py:26-27 | the next match from the cursor is the text before it, its groups and the position after it, as the pairing says; no match means the rest is a single plain piece |
| Troubadown.NoBarIsIdentity | troubadour/troubadown.py:47 | text without a bar is returned unchanged, with no labels |
| Troubadown.UnpairedBarIsText | troubadour/troubadown.py:47 | a final unpaired bar and the text around it are copied verbatim and declare nothing |
| Troubadown.SpanInText | troubadour/troubadown.py:28-45 | for any valid markup between two bars: the text before is copied, then the span's HTML, then the translation of the rest with the anonymous counter moved past this span; the span's label comes before the rest's |
| Troubadown.LabelsFollowTooltipSpans | troubadour/troubadown.py:33-42 | exactly one label per span with a `?` marker, in order; a named tooltip's label is its name, an anonymous one's is `_k` with k the number of anonymous tooltips before it |
| Troubadown.LabelCount | troubadour/troubadown.py:33-42 | over a whole input, as many labels as spans carrying a `?` marker |
| Troubadown.TokenizeRoundTrip | troubadour/troubadown.py:15-20 | the pieces the expression cuts the text into put back together give the input |
| Troubadown.UntokenizeRoundTrip | troubadour/troubadown.py:15-20 | every well-paired sequence of pieces is what the expression cuts its own text into |
| Troubadown.TokenizeWellPaired | troubadour/troubadown.py:15-20 | text before a match holds no bar, each match's groups are ones the expression can produce, the trailing text holds at most one bar |
| Troubadown.FindPairSpec | troubadour/troubadown.py:15-20 | a match runs from the first bar to the first bar after it; there is no match exactly when no bar is followed by another |
| Troubadown.ParseUnparse | troubadour/troubadown.py:16-18 | the groups `tt`, `cls`, `body` with their markers give back the text between the bars |
| Troubadown.UnparseParse | troubadour/troubadown.py:16-18 | reading the groups from the text of a valid markup gives that markup |
| Troubadown.ParseMarkupValid | troubadour/troubadown.py:16-18 | any bar-free text parses into alphanumeric names and classes and a bar-free body, with optional groups absent only when they could not match |
| Troubadown.AlnumRunSpec | troubadour/troubadown.py:16-17 | `[a-zA-Z0-9]*` takes the longest alphanumeric prefix |
| RichTexts.MakeRichText | troubadour/rich_text.py:66-73 | a RichText is returned as it is; a string or any other value becomes a bare node holding its text |
| RichTexts.Classes | troubadour/rich_text.py:47-50 | the copy has the new classes after the old ones and is otherwise the original |
| RichTexts.WithTooltip | troubadour/rich_text.py:52-55 | the copy's tooltip is `make_rich_text(v)` and it is otherwise the original |
| RichTexts.Format | troubadour/rich_text.py:57-63 | the copy-then-append loops give `Formatted`: the arguments appended, the keywords assigned in turn |
| RichTexts.FormattedArgs | troubadour/rich_text.py:59-60 | positional arguments keep the old ones first, then one `make_rich_text` per new argument in order |
| RichTexts.FormattedLookup | troubadour/rich_text.py:61-62 | after `format`, each key holds the RichText of its last assignment, or its old value if not mentioned |
| RichTexts.FormattedKeys | troubadour/rich_text.py:61-62 | keyword arguments keep their old keys first and in order and never hold a key twice |
| RichTexts.AssignKeys | troubadour/rich_text.py:62 | `d[key] = v` keeps an existing key in place and puts a new key last |
| RichTexts.Render | troubadour/rich_text.py:18-45 | the method running the source's loops returns the result, the node afterwards and the counter that `RenderNode` specifies |
| RichTexts.RenderEach | troubadour/rich_text.py:22-25 | the loop over positional arguments equals `RenderArgs`, stopping at the first error |
| RichTexts.RenderEachKeyword | troubadour/rich_text.py:26-29 | the loop over keyword arguments, in insertion order, equals `RenderKwargs` |
| RichTexts.Decorate | troubadour/rich_text.py:39-44 | attributes are the id then the joined classes; a span only when there are attributes; Markdown last and only when asked |
| RichTexts.NodeIds | troubadour/rich_text.py:33-38 | a render draws one id per tooltip-bearing node in one consecutive block, and the tooltip map has exactly the anchors of those ids; the counter never goes back |
| RichTexts.TooltipMapSize | troubadour/rich_text.py:19-38 | the tooltip map has one entry per tooltip in the tree, none overwritten |
| RichTexts.KeyInjective | troubadour/rich_text.py:35-36 | distinct ids give distinct anchors |
| RichTexts.NodeMarked | troubadour/rich_text.py:32-34 | after a successful render every tooltip-bearing node in the tree has "tooltip" appended to its classes, nothing else changed |
| RichTexts.RenderTwice | troubadour/rich_text.py:32-34 | rendering the same node twice leaves "tooltip" twice at the end of its classes |
| RichTexts.MarkdownIsLastStep | troubadour/rich_text.py:43-44 | the flag only decides the final Markdown pass: the tooltip map, tree, counter and success are the same either way |
| RichTexts.PlainText | troubadour/rich_text.py:30-44 | with Markdown off, brace-free text with nothing attached renders as itself, no span, no tooltip, no id drawn |
| RichTexts.ClassedText | troubadour/rich_text.py:39-42 | with Markdown off, classes alone give `<span class="c1 c2">text</span>` |
| RichTexts.Unwrapped | troubadour/rich_text.py:41-44 | no class and no tooltip: no span; the HTML is the substituted text (through Markdown if asked), the map holds the arguments' tooltips |
| RichTexts.TooltipSpan | troubadour/rich_text.py:33-42 | with a tooltip and Markdown off: the id drawn follows the arguments' ids; the span is `<span id="troubadour_tooltip_N" class="... tooltip">`; the map holds the tooltip's Markdown HTML under that anchor |
| RichTexts.NodeSucceeded | troubadour/rich_text.py:22-38 | a node renders only if its arguments, keyword arguments, template and tooltip all do |
| StrFormat.EscapeRoundTrip | troubadour/rich_text.py:30 | text whose braces are doubled formats back to itself for any arguments |
| StrFormat.NoBracesIsIdentity | troubadour/rich_text.py:30 | a template without braces is returned unchanged and never fails |
| StrFormat.AutoFieldTakesNextArgument | troubadour/rich_text.py:30 | `{}` takes the positional argument at the automatic index and moves it on; without it, an index error |
| StrFormat.KeywordFieldTakesItsArgument | troubadour/rich_text.py:30 | after any literal text, a field naming a keyword argument that was given takes that argument's value and leaves the numbering unchanged, whatever follows |
| StrFormat.ManualThenAutoIsRefused | troubadour/rich_text.py:30 | for any literal text around them and any template after, a manual field `{n}` (with an argument at n) followed by `{}` is refused for mixing manual and automatic numbering |
| StrFormat.AutoThenManualIsRefused | troubadour/rich_text.py:30 | for any literal text around them and any template after, `{}` (with an argument to take) followed by a manual field `{n}` is refused the same way |
| StrFormat.MissingKeyword | troubadour/rich_text.py:30 | after any literal text, a field whose name is not all digits, holds no brace, `!`, `:`, `.` or `[` and is not a keyword argument fails with a key error naming it, whatever follows |
| Ids.IdCounter.Fresh | troubadour/rich_text.py:35 | `get_id()` hands out the counter's value and moves it on by one |
| Saves.MaxId | troubadour/html_impl.py:116 | the maximum is at least every number and is one of them |
| Saves.NextIdIsFresh | troubadour/html_impl.py:112-116 | 0 for an empty list; otherwise one more than a number in use and above every number |
| Saves.GameSaves.Merge | troubadour/html_impl.py:118-124 | the loop leaves the list equal to `Merged(old, other)`, and the save numbers stay unique |
| Saves.MergeShape | troubadour/html_impl.py:118-124 | the old list stays in front; then the picked incoming saves in their order, numbered consecutively; a save is picked exactly when it is absent from the list as it stands when the loop reaches it (old list plus the saves added before it) |
| Saves.MergeKeepsExisting | troubadour/html_impl.py:118-124 | existing saves are never changed or moved; at most one save added per incoming save; added saves numbered from `get_next_id()` on |
| Saves.MergeKeepsIdsUnique | troubadour/html_impl.py:118-124 | unique numbers stay unique |
| Saves.MergeKnown | troubadour/html_impl.py:121 | merging saves that are all present changes nothing |
| Saves.MergeSelf | troubadour/html_impl.py:118-124 | merging a list into itself changes nothing |
| Saves.MergeTwiceAddsAgain | troubadour/html_impl.py:121-124 | on values, a save merged a second time is added again under a new number |
| Saves.GameSaves.SaveGame | troubadour/html_impl.py:297-305 | the new save, with the next number, the name, the state and the time, goes at the end; the numbers stay unique |
| Saves.SaveKeepsIdsUnique | troubadour/html_impl.py:302-305 | saving keeps the numbers unique |
| Saves.GameSaves.DeleteSave | troubadour/html_impl.py:311-314 | the list becomes the saves whose number is not `id`, in order; the numbers stay unique |
| Saves.Without | troubadour/html_impl.py:314 | a save is kept if and only if it was there and its number is not `id` |
| Saves.WithoutSplits | troubadour/html_impl.py:314 | deleting works piecewise, so the kept saves stay in their order |
| Saves.WithoutAbsent | troubadour/html_impl.py:314 | deleting a number not in use changes nothing |
| Saves.WithoutKeepsIdsUnique | troubadour/html_impl.py:314 | deleting keeps the numbers unique |
| Saves.WithoutRemovesOne | troubadour/html_impl.py:314 | with unique numbers, deleting a number in use removes exactly one save |
| Stories.Raised | troubadour/html_impl.py:168-174 | only a display command can raise |
| Stories.Story.Display | troubadour/html_impl.py:152-174 | the display command goes to the front of the history, also when the tooltip binding then raises; the binding raises an `IndexError` exactly when there are more positional tooltips than labels in the translated text, otherwise a `TypeError` exactly when named tooltips are given |
| Stories.Story.NewPage | troubadour/html_impl.py:176-177 | the page break goes to the front of the history |
| Stories.Story.Image | troubadour/html_impl.py:181-183 | the image command goes to the front; one id is drawn |
| Stories.Story.Replay | troubadour/html_impl.py:420-427 | issuing a command again puts it in front, draws an id only for an image and raises what the command raises |
| Stories.Story.LoadCacheData | troubadour/html_impl.py:412-428 | replaying the history oldest first leaves `Replayed(old history)` and raises what the oldest raising command raises; one id is drawn per image replayed |
| Stories.ReplayRebuilds | troubadour/html_impl.py:418-427 | when no command raises, the replay rebuilds exactly the old history and raises nothing |
| Stories.ReplayStopsAtOldestRaise | troubadour/html_impl.py:418-427 | when the oldest command that raises is `h[i]`, the history keeps `h[i]` and everything older, every newer command is lost, and the replay raises what `h[i]` raises |
| Stories.ReplayedAppend | troubadour/html_impl.py:418-427 | newer commands that all go through are replayed on top of what the older ones left, and do not change the exception |
| Stories.ImageCountSplit | troubadour/html_impl.py:419-427 | the ids drawn by a replay add up over the parts of the history |
| Session.Toggled | troubadour/html_impl.py:386-404 | "dark" and "light" trade places, any other mode is left as it is |
| Session.ToggleTwice | troubadour/html_impl.py:386-404 | two presses return to the start |
| Session.ToggleStaysKnown | troubadour/html_impl.py:386-404 | from "light" or "dark" the mode changes and stays within the two |
| Session.ColorMode.Toggle | troubadour/html_impl.py:386-404 | the global mode toggles and the stored game state takes the new mode, nothing else |
| Session.SubmittedValue | troubadour/html_impl.py:234-238 | the typed value, or the default when nothing was typed; empty only when both are |
| Session.SubmitIdempotent | troubadour/html_impl.py:234-238 | applying the rule to its own result changes nothing |
| Decimal.ParseShow | troubadour/troubadown.py:35-36 | the decimal rendering of an id reads back as that id |

## Left out

- Everything shown on screen or stored is left out: the DOM updates through the renderer, `mistune` (a function parameter of `render`), the `jsonpickle` encoding, local storage, file download and the modals. The model keeps only the values these functions compute and the lists they change.
- Stories.Story.Display: records the command and the exception the tooltip binding raises, but not what is shown: the Markdown pass, the HTML put in the page and the tooltips bound before the exception are display only.
- Stories.Story.NewPage: the divider carries the current date and time. The clock is not modelled.
- Stories.Story.Image: the card HTML is not modelled, only the id it draws.
- Stories.Story.LoadCacheData: the case that raises `NotImplementedError` cannot occur, because the command type is closed. LoadCacheData models only the replay loop. The redraw afterwards (`render_interface`) also draws one id from the shared counter per button and per text input, and that is not modelled. Redrawing the panels and the porthole is display only.
- `load_save`, the import of a save list and the renderers' `render` methods only read and show data. They are not modelled.
- Saves.GameSaves.Merge: works on values. It does not model the in-place renumbering of the incoming save objects (`save.nb = next_id`), which the caller's list shares. It also does not model how the game and its interface list compare: a `GameState` abstracts each of them to an opaque number, next to the colour mode.
- Saves.GameSaves.SaveGame: the name typed in and the current time are parameters. A date is modelled as its timestamp.
- Session.ColorMode.Toggle: the style sheets, icons and classes it switches in the page are not modelled.
- RichTexts.Render: models `render` on values. The node after the call is returned rather than mutated in place. Aliasing is therefore left out: a RichText passed to `format` or `tooltip` is stored without a copy, so in the file's own `__main__` block the node `t1` sits in two places and is marked twice.
- RichTexts.Render: the tooltip map is a `map`, so the insertion order of a Python `dict` is not modelled. The keys are distinct anchors, so no value depends on that order.
- StrFormat covers only the parts of `str.format` that story templates use. Conversions (`!r`), format specifications (`:>10`), attribute access and indexing in a field are reported as `Unsupported`, not evaluated. Formatting a value other than a string does not occur, because `render` passes rendered strings only.
- troubadour/id.py is not part of this model. `get_id` is an `Ids.IdCounter` whose starting value is a parameter.
- `interfaces.py` declares `DisplayCmd` with the `text` field only. The front ends construct it with four fields, which the model follows.
