# Error series and drawlist child table: a Dafny model

This project models two items of the DearPyGui widget tree.

- The **error series** is a plot item that draws error bars. It holds four
  numeric slots: x, y, negative and positive deviation. It also holds a
  `horizontal` orientation flag. The model covers:
  - the parent check (only a plot axis is accepted);
  - how positional and keyword arguments from the scripting host are
    bound to the slots and the flag;
  - how the configuration is read back;
  - the per-frame draw. It pushes the font and applies themes, emits one
    error-bar call, draws the legend-popup children, then pops the font
    and undoes the themes.
- The **drawlist** contributes its table of accepted child kinds and its
  two origin fields.

The rendering back end (ImGui/ImPlot) is not modelled. `Draw` returns the
ordered log of calls it would make (`ErrorSeriesDraw.Event`). Bracketing
is then stated as counts and positions in that log. What the frame
depends on outside the series' own fields is a `Frame` parameter:
- whether the item kind has a class theme (state of the kind, not of the
  back end);
- whether the legend popup opened (the back end's answer);
- the plot position (the back end's answer).

Host arguments arrive already decoded:
- the positional tuple is a `seq<seq<real>>`;
- the keyword dictionary is an `Option<map<string, HostValue>>`. `None`
  is the null dictionary. A `HostValue` records what the boolean and
  double-list conversions make of a host object.

The host's required-argument check is a boolean parameter.

Files:
- `item_kinds.dfy` — the item-kind tags.
- `seq_utils.dfy` — counting, distinctness and flattening.
- `host_args.dfy` — decoded host values.
- `error_series_args.dfy` — argument binding as functions, with their
  lemmas.
- `error_series_draw.dfy` — the draw log as functions, with the bracketing
  and legend lemmas.
- `error_series.dfy` — the `ErrorSeries` class, whose imperative methods
  are proved against those functions.
- `drawlist.dfy` — the child table and the `Drawlist` class.

What the code does, and the model with it:
- The code pops the font before undoing the themes. It undoes the class
  theme before the item theme, which is push order and not reverse order.
- The code applies both the class theme and the item theme when both
  exist. It does not pick one of them.
- The code draws children only inside the legend popup, and only when the
  popup opens. It skips hidden children.
- The code never checks that the four slots have equal length. The
  error-bar call gets the length of x as its count.

## Model

| member | source | states |
|---|---|---|
| ErrorSeries.IsParentCompatible | DearPyGui/src/core/AppItems/plots/mvErrorSeries.cpp:43-52 | the check succeeds iff the parent is a plot axis; otherwise it is an incompatible-parent error whose acceptable list is exactly [plot axis] and whose message is the source's message |
| ErrorSeries.MessageNamesPlotAxis | DearPyGui/src/core/AppItems/plots/mvErrorSeries.cpp:47-48 | the incompatible-parent message ends by naming "plot axis" |
| ErrorSeries.ErrorSeries.constructor | DearPyGui/src/core/AppItems/plots/mvErrorSeries.cpp:31-41 | a new series has four empty slots, the schema default `horizontal = false`, and the base-item state it is given |
| ErrorSeries.ErrorSeries.HandleRequiredArgs | DearPyGui/src/core/AppItems/plots/mvErrorSeries.cpp:145-175 | if the required-argument check fails, the slots are unchanged; otherwise they become the positional fold of the tuple over the old slots; the flag is never touched |
| ErrorSeries.ErrorSeries.HandleKeywordArgs | DearPyGui/src/core/AppItems/plots/mvErrorSeries.cpp:177-189 | the new flag and slots are the keyword binding of the dictionary applied to the old ones |
| ErrorSeries.ErrorSeries.GetSpecificConfiguration | DearPyGui/src/core/AppItems/plots/mvErrorSeries.cpp:191-197 | returns the dictionary with `horizontal` set to the current flag, or nothing for a null dictionary |
| ErrorSeries.ErrorSeries.DrawLegendChildren | DearPyGui/src/core/AppItems/plots/mvErrorSeries.cpp:105-115 | the nested loops yield exactly the legend-loop log over all child sets |
| ErrorSeries.ErrorSeries.Draw | DearPyGui/src/core/AppItems/plots/mvErrorSeries.cpp:54-143 | the calls made in one frame are exactly the frame log `DrawEvents` of the series' state |
| ErrorSeriesArgs.BindPositional | DearPyGui/src/core/AppItems/plots/mvErrorSeries.cpp:150-174 | the positional loop keeps exactly four slots (its meaning is stated by the lemmas below) |
| ErrorSeriesArgs.BindPositionalAt | DearPyGui/src/core/AppItems/plots/mvErrorSeries.cpp:150-174 | after binding, slot k holds tuple element k if the tuple has one, and its old contents otherwise |
| ErrorSeriesArgs.BindPositionalClosedForm | DearPyGui/src/core/AppItems/plots/mvErrorSeries.cpp:150-174 | binding gives the first four elements when there are at least four, else the elements followed by the untouched old slots |
| ErrorSeriesArgs.BindPositionalIgnoresTail | DearPyGui/src/core/AppItems/plots/mvErrorSeries.cpp:171-172 | elements after the fourth never change the result |
| ErrorSeriesArgs.BindPositionalIdempotent | DearPyGui/src/core/AppItems/plots/mvErrorSeries.cpp:145-175 | binding the same tuple twice equals binding it once |
| ErrorSeriesArgs.ApplyKeywords | DearPyGui/src/core/AppItems/plots/mvErrorSeries.cpp:177-189 | keyword binding keeps the four-slot shape (its meaning is stated by the lemmas below) |
| ErrorSeriesArgs.ApplyKeywordsFields | DearPyGui/src/core/AppItems/plots/mvErrorSeries.cpp:182-187 | each of `horizontal`, `x`, `y`, `negative`, `positive` takes its converted value iff its key is present and is unchanged otherwise; slot k is keyed by the k-th schema name |
| ErrorSeriesArgs.ApplyKeywordsAbsent | DearPyGui/src/core/AppItems/plots/mvErrorSeries.cpp:179-187 | a null dictionary, or one with none of the five keys, leaves the configuration unchanged |
| ErrorSeriesArgs.ApplyKeywordsIdempotent | DearPyGui/src/core/AppItems/plots/mvErrorSeries.cpp:177-189 | applying the same dictionary twice gives the same state as once |
| ErrorSeriesArgs.PositionalMatchesKeywords | DearPyGui/src/core/AppItems/plots/mvErrorSeries.cpp:25-28 | passing values under the schema names x, y, negative, positive fills the same slots as passing them positionally in that order |
| ErrorSeriesArgs.ReportConfiguration | DearPyGui/src/core/AppItems/plots/mvErrorSeries.cpp:191-197 | a null dictionary stays null; otherwise the keys gain `horizontal`, its truth value is the flag, and every other entry is unchanged |
| ErrorSeriesArgs.ReportsLastHorizontal | DearPyGui/src/core/AppItems/plots/mvErrorSeries.cpp:182-196 | the reported flag is the one the last keyword binding set, or the earlier flag when that binding lacked the key |
| ErrorSeriesArgs.ReportThenApply | DearPyGui/src/core/AppItems/plots/mvErrorSeries.cpp:182-196 | applying a reported configuration to any series copies the flag and leaves its slots unchanged |
| ErrorSeriesDraw.HiddenDrawsNothing | DearPyGui/src/core/AppItems/plots/mvErrorSeries.cpp:60-61 | the frame log is empty iff the series is hidden: no font, theme, plot or child call |
| ErrorSeriesDraw.FontBalanced | DearPyGui/src/core/AppItems/plots/mvErrorSeries.cpp:64-132 | the font is pushed once iff the series is shown and has a font, and pops equal pushes, so the font stack depth is unchanged |
| ErrorSeriesDraw.FontPushedBeforePopped | DearPyGui/src/core/AppItems/plots/mvErrorSeries.cpp:64-132 | with a font, the first call is the push and a pop comes later |
| ErrorSeriesDraw.ThemesBalanced | DearPyGui/src/core/AppItems/plots/mvErrorSeries.cpp:71-142 | each of the class and item theme is applied once iff shown, enabled and present (never when disabled), and gets exactly as many custom actions as applications |
| ErrorSeriesDraw.ClassThemeFirst | DearPyGui/src/core/AppItems/plots/mvErrorSeries.cpp:73-79 | when both themes apply, the class theme is applied before the item theme |
| ErrorSeriesDraw.DrawBracketOrder | DearPyGui/src/core/AppItems/plots/mvErrorSeries.cpp:63-142 | in a shown frame, font push and theme applications come first, then the error-bar call, the popup begin, the child calls, the popup end when it opened, and last the font pop and theme custom actions |
| ErrorSeriesDraw.LegendPopupBracket | DearPyGui/src/core/AppItems/plots/mvErrorSeries.cpp:103-116 | the legend popup is begun once per shown frame and ended once iff it opened |
| ErrorSeriesDraw.OneErrorBarsCall | DearPyGui/src/core/AppItems/plots/mvErrorSeries.cpp:92-100 | a shown frame makes exactly one error-bar call, horizontal iff the flag is set, with the label, slots 0..3 in order and the length of x as count; a hidden one makes none |
| ErrorSeriesDraw.ChildSetEventsShown | DearPyGui/src/core/AppItems/plots/mvErrorSeries.cpp:107-114 | the inner loop draws then updates exactly the shown children of one set, in order |
| ErrorSeriesDraw.LegendEventsShown | DearPyGui/src/core/AppItems/plots/mvErrorSeries.cpp:105-115 | the nested loops draw then update exactly the shown children of the flattened child sets, in set order then child order |
| ErrorSeriesDraw.LegendOrder | DearPyGui/src/core/AppItems/plots/mvErrorSeries.cpp:103-117 | call 2i draws the i-th shown child at the plot position and call 2i+1 updates it; nothing else is in the popup body; a child is among the shown iff it is in a set and shown |
| ErrorSeriesDraw.LegendChildOnce | DearPyGui/src/core/AppItems/plots/mvErrorSeries.cpp:105-114 | with distinct child ids, every child is drawn and updated exactly once if shown and never if hidden |
| ErrorSeriesDraw.VerticalSeriesScenario | DearPyGui/src/core/AppItems/plots/mvErrorSeries.cpp:97-100 | a shown series bound to x=[1,2], y=[1,2], negative=positive=[0.1,0.1] with the default flag makes one vertical call with those arrays and count 2 |
| Drawlist.AllowedChildKindsDistinct | DearPyGui/src/core/AppItems/drawing/mvDrawlist.h:17-32 | the declared list has sixteen pairwise-distinct kinds |
| Drawlist.AllowedChildrenSize | DearPyGui/src/core/AppItems/drawing/mvDrawlist.h:16-33 | the accepted-child set has exactly sixteen kinds |
| Drawlist.PolygonAndLayerAccepted | DearPyGui/src/core/AppItems/drawing/mvDrawlist.h:17-28 | drawing polygons and draw layers are accepted children |
| Drawlist.AcceptsOnlyDrawingKinds | DearPyGui/src/core/AppItems/drawing/mvDrawlist.h:16-33 | a kind is accepted iff it is one of the draw kinds; plot axis, error series, table row, drawlist and every other kind are refused |
| Drawlist.Drawlist.constructor | DearPyGui/src/core/AppItems/drawing/mvDrawlist.h:46-47 | a new drawlist has both origin fields at 0 |

## Left out

- ImGui/ImPlot calls (font stack, theme draw and custom action, error bars, legend popup, plot position). These are foreign library calls. They appear only as entries in the call log. A child's own draw and state update are one log entry each.
- The plot position is read once per frame (`Frame.plotX`, `Frame.plotY`). The source queries it for every child, but nothing in the frame moves it.
- Python C-API marshalling (tuple and dictionary access, `ToDoubleVect`, `ToBool`, `ToPyBool`) and `verifyRequiredArguments`. These are host code. Inputs are decoded values, and the check is a boolean. A host boolean written back is taken to read as an empty double list.
- Draw: the count passed to the error-bar call is the unbounded length of x. The source's narrowing of the size to a C `int` is not modelled.
- OneErrorBarsCall: the count is the unbounded length of x, as for Draw.
- Unequal slot lengths at draw time. The code passes only the length of x and never checks the other slots, so the model neither adds a requirement nor invents a validation.
- `contribute_to_bounds`. It is declared in the argument schema but never read or written by this item.
- The function-local static pointers in draw. They have no observable effect.
- Parser registration in `InsertParser`: the common arguments, the documentation text and the registry insertion. Only the slot names and the `horizontal` default are modelled.
- The base item: default `show`, `enabled`, font, theme, label and children, and the initial slot contents. Their definitions are not part of this model. The constructor takes the base state as a parameter and starts the slots empty.
- The initial value of `horizontal`. Its field initializer is in mvErrorSeries.h, which is not part of this model; the constructor uses the argument schema's declared default, false.
- The series' font, theme and enabled state, and the existence of a class theme, are read once per frame. The source reads them again after the legend children have drawn; nothing in the frame changes them. FontBalanced and ThemesBalanced rely on that.
- The error raised by the parent check is returned as a value. The source raises a host exception, then reaches `assert(false)`: a build with assertions on aborts there, and a release build returns false.
- mvDrawPolygon.h and mvTableRow.h. They hold only field declarations and prototypes; the row's draw is empty.
- The drawlist's `draw`, argument handling, configuration, template and parser. Only their declarations are in these files.
- The registration macros and the default-children macro. Their definitions are not part of this model.
- Tree-level create, move and delete, id assignment and the item registry. They are not part of these files.
