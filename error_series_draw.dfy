/** What one frame of an error series sends to the rendering back end, as
    an ordered log of calls. The back end itself (fonts, themes, the plot
    and its legend popup) is outside the model; only the calls are kept. */
module ErrorSeriesDraw {
  import opened SeqUtils
  import opened ErrorSeriesArgs

  /** A legend child as the series sees it: an item id and its shown flag.
      What the child draws is the child's business. */
  datatype Child = Child(uuid: nat, show: bool)

  /** The two themes a series may apply: the per-kind class theme and the
      item's own theme. */
  datatype ThemeScope = ClassTheme | ItemTheme

  /** One call into the back end. `ApplyTheme` is the theme's draw (which
      pushes its style values), `ThemeAction` its custom action (which undoes
      them). `horizontal` tells the horizontal error-bar call from the
      vertical one. */
  datatype Event =
    | PushFont
    | PopFont
    | ApplyTheme(scope: ThemeScope)
    | ThemeAction(scope: ThemeScope)
    | PlotErrorBars(horizontal: bool, itemLabel: string, xs: seq<real>, ys: seq<real>,
                    negative: seq<real>, positive: seq<real>, count: int)
    | BeginLegendPopup(itemLabel: string)
    | EndLegendPopup
    | DrawChild(uuid: nat, x: real, y: real)
    | UpdateChildState(uuid: nat)

  /** The series state that drawing reads. */
  datatype Series = Series(
    show: bool,
    enabled: bool,
    hasFont: bool,
    hasTheme: bool,
    itemLabel: string,
    config: Config,
    children: seq<seq<Child>>)

  /** What the back end answers during the frame: whether the kind has a
      class theme, whether the legend popup opened, and the plot position
      handed to the legend children. */
  datatype Frame = Frame(hasClassTheme: bool, legendOpen: bool, plotX: real, plotY: real)

  // ---------------------------------------------------------------------
  // The log of one frame
  // ---------------------------------------------------------------------

  /** The call `e` when `b` holds, nothing otherwise. */
  function When(b: bool, e: Event): seq<Event> {
    if b then [e] else []
  }

  /** Font push and theme application, before the series is plotted. */
  function PreDraw(s: Series, f: Frame): seq<Event> {
    When(s.hasFont, PushFont)
    + When(s.enabled && f.hasClassTheme, ApplyTheme(ClassTheme))
    + When(s.enabled && s.hasTheme, ApplyTheme(ItemTheme))
  }

  /** Font pop and theme custom actions, after everything else. */
  function PostDraw(s: Series, f: Frame): seq<Event> {
    When(s.hasFont, PopFont)
    + When(s.enabled && f.hasClassTheme, ThemeAction(ClassTheme))
    + When(s.enabled && s.hasTheme, ThemeAction(ItemTheme))
  }

  /** The error-bar call: the four slots in order, the length of x as count. */
  function ErrorBarsCall(s: Series): Event
    requires WellFormed(s.config)
  {
    var v := s.config.slots;
    PlotErrorBars(s.config.horizontal, s.itemLabel, v[0], v[1], v[2], v[3], |v[0]|)
  }

  /** A legend child's calls: draw at the plot position, then update state;
      nothing for a hidden child. */
  function ChildEvents(c: Child, f: Frame): seq<Event> {
    if c.show then [DrawChild(c.uuid, f.plotX, f.plotY), UpdateChildState(c.uuid)] else []
  }

  /** The inner legend loop over one child set. */
  function ChildSetEvents(cs: seq<Child>, f: Frame): seq<Event>
    decreases |cs|
  {
    if cs == [] then [] else ChildSetEvents(cs[..|cs| - 1], f) + ChildEvents(cs[|cs| - 1], f)
  }

  /** The outer legend loop over the child sets. */
  function LegendEvents(children: seq<seq<Child>>, f: Frame): seq<Event>
    decreases |children|
  {
    if children == [] then []
    else LegendEvents(children[..|children| - 1], f) + ChildSetEvents(children[|children| - 1], f)
  }

  /** The legend popup: begun every frame; its children and its end only
      when it opened. */
  function Legend(s: Series, f: Frame): seq<Event> {
    [BeginLegendPopup(s.itemLabel)]
    + (if f.legendOpen then LegendEvents(s.children, f) + [EndLegendPopup] else [])
  }

  /** Everything one frame of the series sends to the back end. */
  function DrawEvents(s: Series, f: Frame): seq<Event>
    requires WellFormed(s.config)
  {
    if !s.show then []
    else PreDraw(s, f) + [ErrorBarsCall(s)] + Legend(s, f) + PostDraw(s, f)
  }

  /** One more child of a set, as one more turn of the inner loop. */
  lemma ChildSetEventsStep(cs: seq<Child>, j: nat, f: Frame)
    requires j < |cs|
    ensures ChildSetEvents(cs[..j + 1], f) == ChildSetEvents(cs[..j], f) + ChildEvents(cs[j], f)
  {
    assert cs[..j + 1][..j] == cs[..j];
  }

  /** One more child set, as one more turn of the outer loop. */
  lemma LegendEventsStep(children: seq<seq<Child>>, i: nat, f: Frame)
    requires i < |children|
    ensures LegendEvents(children[..i + 1], f) == LegendEvents(children[..i], f) + ChildSetEvents(children[i], f)
  {
    assert children[..i + 1][..i] == children[..i];
  }

  // ---------------------------------------------------------------------
  // Reference definitions for the legend loop
  // ---------------------------------------------------------------------

  /** The shown children, in order. */
  function Shown(cs: seq<Child>): (r: seq<Child>)
    ensures |r| <= |cs|
  {
    if cs == [] then [] else (if cs[0].show then [cs[0]] else []) + Shown(cs[1..])
  }

  function Uuids(cs: seq<Child>): (r: seq<nat>)
    ensures |r| == |cs|
    ensures forall i :: 0 <= i < |cs| ==> r[i] == cs[i].uuid
  {
    if cs == [] then [] else [cs[0].uuid] + Uuids(cs[1..])
  }

  /** Draw-then-update for each child of `cs`, in order. */
  function DrawThenUpdate(cs: seq<Child>, f: Frame): (r: seq<Event>)
    ensures |r| == 2 * |cs|
  {
    if cs == [] then [] else [DrawChild(cs[0].uuid, f.plotX, f.plotY), UpdateChildState(cs[0].uuid)] + DrawThenUpdate(cs[1..], f)
  }

  lemma {:induction false} ShownMembers(cs: seq<Child>, c: Child)
    ensures c in Shown(cs) <==> c in cs && c.show
  {
    if cs != [] {
      ShownMembers(cs[1..], c);
      assert cs == [cs[0]] + cs[1..];
    }
  }

  lemma {:induction false} ShownAppend(a: seq<Child>, b: seq<Child>)
    ensures Shown(a + b) == Shown(a) + Shown(b)
  {
    if a == [] {
      assert a + b == b;
    } else {
      var ab := a + b;
      var head := if a[0].show then [a[0]] else [];
      assert ab[0] == a[0];
      assert ab[1..] == a[1..] + b;
      assert Shown(ab) == head + Shown(ab[1..]);
      assert Shown(a) == head + Shown(a[1..]);
      ShownAppend(a[1..], b);
    }
  }

  lemma {:induction false} DrawThenUpdateAppend(a: seq<Child>, b: seq<Child>, f: Frame)
    ensures DrawThenUpdate(a + b, f) == DrawThenUpdate(a, f) + DrawThenUpdate(b, f)
  {
    if a == [] {
      assert a + b == b;
    } else {
      assert (a + b)[1..] == a[1..] + b;
      DrawThenUpdateAppend(a[1..], b, f);
    }
  }

  lemma {:induction false} DrawThenUpdateAt(cs: seq<Child>, f: Frame, i: nat)
    requires i < |cs|
    ensures DrawThenUpdate(cs, f)[2 * i] == DrawChild(cs[i].uuid, f.plotX, f.plotY)
    ensures DrawThenUpdate(cs, f)[2 * i + 1] == UpdateChildState(cs[i].uuid)
  {
    if i > 0 {
      DrawThenUpdateAt(cs[1..], f, i - 1);
    }
  }

  /** The inner loop draws and updates exactly the shown children of the set. */
  lemma {:induction false} ChildSetEventsShown(cs: seq<Child>, f: Frame)
    ensures ChildSetEvents(cs, f) == DrawThenUpdate(Shown(cs), f)
    decreases |cs|
  {
    if cs != [] {
      var n := |cs| - 1;
      ChildSetEventsShown(cs[..n], f);
      assert cs == cs[..n] + [cs[n]];
      ShownAppend(cs[..n], [cs[n]]);
      DrawThenUpdateAppend(Shown(cs[..n]), Shown([cs[n]]), f);
    }
  }

  /** The two nested loops together draw and update the shown children of
      all child sets, sets in order and children in order within a set. */
  lemma {:induction false} LegendEventsShown(children: seq<seq<Child>>, f: Frame)
    ensures LegendEvents(children, f) == DrawThenUpdate(Shown(Flatten(children)), f)
    decreases |children|
  {
    if children != [] {
      var n := |children| - 1;
      LegendEventsShown(children[..n], f);
      ChildSetEventsShown(children[n], f);
      assert children == children[..n] + [children[n]];
      FlattenSnoc(children[..n], children[n]);
      ShownAppend(Flatten(children[..n]), children[n]);
      DrawThenUpdateAppend(Shown(Flatten(children[..n])), Shown(children[n]), f);
    }
  }

  /** Legend order, stated position by position: event `2i` draws the
      `i`-th shown child and event `2i+1` updates it; there is nothing
      else. Only shown children appear. */
  lemma LegendOrder(children: seq<seq<Child>>, f: Frame)
    ensures var shown := Shown(Flatten(children));
      && |LegendEvents(children, f)| == 2 * |shown|
      && (forall i :: 0 <= i < |shown| ==>
            && LegendEvents(children, f)[2 * i] == DrawChild(shown[i].uuid, f.plotX, f.plotY)
            && LegendEvents(children, f)[2 * i + 1] == UpdateChildState(shown[i].uuid))
      && (forall c :: c in shown <==> c in Flatten(children) && c.show)
  {
    var shown := Shown(Flatten(children));
    LegendEventsShown(children, f);
    forall i | 0 <= i < |shown|
      ensures LegendEvents(children, f)[2 * i] == DrawChild(shown[i].uuid, f.plotX, f.plotY)
      ensures LegendEvents(children, f)[2 * i + 1] == UpdateChildState(shown[i].uuid)
    {
      DrawThenUpdateAt(shown, f, i);
    }
    forall c ensures c in shown <==> c in Flatten(children) && c.show {
      ShownMembers(Flatten(children), c);
    }
  }

  lemma {:induction false} DrawThenUpdateCounts(cs: seq<Child>, f: Frame, u: nat)
    ensures Count(DrawThenUpdate(cs, f), DrawChild(u, f.plotX, f.plotY)) == Count(Uuids(cs), u)
    ensures Count(DrawThenUpdate(cs, f), UpdateChildState(u)) == Count(Uuids(cs), u)
  {
    if cs != [] {
      var head := [DrawChild(cs[0].uuid, f.plotX, f.plotY), UpdateChildState(cs[0].uuid)];
      DrawThenUpdateCounts(cs[1..], f, u);
      CountAppend(head, DrawThenUpdate(cs[1..], f), DrawChild(u, f.plotX, f.plotY));
      CountAppend(head, DrawThenUpdate(cs[1..], f), UpdateChildState(u));
      assert head[1..] == [UpdateChildState(cs[0].uuid)];
      assert head[1..][1..] == [];
    }
  }

  lemma {:induction false} ShownUuidCount(cs: seq<Child>, c: Child)
    requires Distinct(Uuids(cs)) && c in cs
    ensures Count(Uuids(Shown(cs)), c.uuid) == if c.show then 1 else 0
  {
    var rest := cs[1..];
    assert Distinct(Uuids(rest)) by {
      forall i, j | 0 <= i < j < |rest| ensures Uuids(rest)[i] != Uuids(rest)[j] {
        assert Uuids(cs)[i + 1] != Uuids(cs)[j + 1];
      }
    }
    var head := if cs[0].show then [cs[0]] else [];
    assert Shown(cs) == head + Shown(rest);
    assert Uuids(head + Shown(rest)) == Uuids(head) + Uuids(Shown(rest)) by {
      var l := head + Shown(rest);
      assert forall i :: 0 <= i < |l| ==> Uuids(l)[i] == (Uuids(head) + Uuids(Shown(rest)))[i];
    }
    CountAppend(Uuids(head), Uuids(Shown(rest)), c.uuid);
    if cs[0] == c {
      assert c.uuid !in Uuids(Shown(rest)) by {
        forall i | 0 <= i < |Shown(rest)| ensures Shown(rest)[i].uuid != c.uuid {
          ShownMembers(rest, Shown(rest)[i]);
          var j :| 0 <= j < |rest| && rest[j] == Shown(rest)[i];
          assert Uuids(cs)[0] != Uuids(cs)[j + 1];
        }
      }
    } else {
      assert c in rest;
      var j :| 0 <= j < |rest| && rest[j] == c;
      assert cs[0].uuid != c.uuid by {
        assert Uuids(cs)[0] != Uuids(cs)[j + 1];
      }
      ShownUuidCount(rest, c);
    }
  }

  /** When children carry distinct ids, every child of every set is drawn
      and updated exactly once if shown, and never if hidden. */
  lemma LegendChildOnce(children: seq<seq<Child>>, f: Frame, c: Child)
    requires Distinct(Uuids(Flatten(children))) && c in Flatten(children)
    ensures Count(LegendEvents(children, f), DrawChild(c.uuid, f.plotX, f.plotY)) == if c.show then 1 else 0
    ensures Count(LegendEvents(children, f), UpdateChildState(c.uuid)) == if c.show then 1 else 0
  {
    LegendEventsShown(children, f);
    DrawThenUpdateCounts(Shown(Flatten(children)), f, c.uuid);
    ShownUuidCount(Flatten(children), c);
  }

  // ---------------------------------------------------------------------
  // Bracketing of one frame
  // ---------------------------------------------------------------------

  /** A call that a legend child's draw or update never produces. */
  predicate IsBracketEvent(e: Event) {
    !e.DrawChild? && !e.UpdateChildState?
  }

  lemma LegendHasOnlyChildCalls(children: seq<seq<Child>>, f: Frame, e: Event)
    requires IsBracketEvent(e)
    ensures e !in LegendEvents(children, f)
  {
    LegendOrder(children, f);
    var l := LegendEvents(children, f);
    var shown := Shown(Flatten(children));
    forall k | 0 <= k < |l| ensures l[k] != e {
      var i := k / 2;
      if k == 2 * i {
        assert l[2 * i] == DrawChild(shown[i].uuid, f.plotX, f.plotY);
      } else {
        assert k == 2 * i + 1;
        assert l[2 * i + 1] == UpdateChildState(shown[i].uuid);
      }
    }
  }

  lemma CountWhen(b: bool, e: Event, x: Event)
    ensures Count(When(b, e), x) == if b && e == x then 1 else 0
  {
    if b {
      assert [e][1..] == [];
    }
  }

  lemma CountThree(p: seq<Event>, q: seq<Event>, r: seq<Event>, x: Event)
    ensures Count(p + q + r, x) == Count(p, x) + Count(q, x) + Count(r, x)
  {
    CountAppend(p + q, r, x);
    CountAppend(p, q, x);
  }

  /** How often a call occurs in the pre-draw part. */
  lemma PreDrawCount(s: Series, f: Frame, x: Event)
    ensures Count(PreDraw(s, f), x) ==
      (if s.hasFont && x == PushFont then 1 else 0)
      + (if s.enabled && f.hasClassTheme && x == ApplyTheme(ClassTheme) then 1 else 0)
      + (if s.enabled && s.hasTheme && x == ApplyTheme(ItemTheme) then 1 else 0)
  {
    CountThree(When(s.hasFont, PushFont), When(s.enabled && f.hasClassTheme, ApplyTheme(ClassTheme)),
      When(s.enabled && s.hasTheme, ApplyTheme(ItemTheme)), x);
    CountWhen(s.hasFont, PushFont, x);
    CountWhen(s.enabled && f.hasClassTheme, ApplyTheme(ClassTheme), x);
    CountWhen(s.enabled && s.hasTheme, ApplyTheme(ItemTheme), x);
  }

  /** How often a call occurs in the post-draw part. */
  lemma PostDrawCount(s: Series, f: Frame, x: Event)
    ensures Count(PostDraw(s, f), x) ==
      (if s.hasFont && x == PopFont then 1 else 0)
      + (if s.enabled && f.hasClassTheme && x == ThemeAction(ClassTheme) then 1 else 0)
      + (if s.enabled && s.hasTheme && x == ThemeAction(ItemTheme) then 1 else 0)
  {
    CountThree(When(s.hasFont, PopFont), When(s.enabled && f.hasClassTheme, ThemeAction(ClassTheme)),
      When(s.enabled && s.hasTheme, ThemeAction(ItemTheme)), x);
    CountWhen(s.hasFont, PopFont, x);
    CountWhen(s.enabled && f.hasClassTheme, ThemeAction(ClassTheme), x);
    CountWhen(s.enabled && s.hasTheme, ThemeAction(ItemTheme), x);
  }

  /** Counting a bracket call over a whole frame, part by part. */
  lemma DrawCount(s: Series, f: Frame, e: Event)
    requires WellFormed(s.config) && IsBracketEvent(e) && s.show
    ensures Count(DrawEvents(s, f), e) ==
      Count(PreDraw(s, f), e)
      + (if ErrorBarsCall(s) == e then 1 else 0)
      + (if BeginLegendPopup(s.itemLabel) == e then 1 else 0)
      + (if f.legendOpen && e == EndLegendPopup then 1 else 0)
      + Count(PostDraw(s, f), e)
  {
    var pre, post := PreDraw(s, f), PostDraw(s, f);
    var legend := Legend(s, f);
    var rest := if f.legendOpen then LegendEvents(s.children, f) + [EndLegendPopup] else [];
    assert DrawEvents(s, f) == pre + [ErrorBarsCall(s)] + legend + post;
    CountAppend(pre + [ErrorBarsCall(s)] + legend, post, e);
    CountThree(pre, [ErrorBarsCall(s)], legend, e);
    CountWhen(true, ErrorBarsCall(s), e);
    assert legend == [BeginLegendPopup(s.itemLabel)] + rest;
    CountAppend([BeginLegendPopup(s.itemLabel)], rest, e);
    CountWhen(true, BeginLegendPopup(s.itemLabel), e);
    if f.legendOpen {
      CountAppend(LegendEvents(s.children, f), [EndLegendPopup], e);
      LegendHasOnlyChildCalls(s.children, f, e);
      CountWhen(true, EndLegendPopup, e);
    }
  }

  /** A hidden series makes no call at all, and a shown one always makes
      some. */
  lemma HiddenDrawsNothing(s: Series, f: Frame)
    requires WellFormed(s.config)
    ensures DrawEvents(s, f) == [] <==> !s.show
  {
  }

  /** The font is pushed exactly when the series is shown and has a font,
      and every push is matched by one pop: the font stack ends the frame
      as deep as it started. */
  lemma FontBalanced(s: Series, f: Frame)
    requires WellFormed(s.config)
    ensures Count(DrawEvents(s, f), PushFont) == (if s.show && s.hasFont then 1 else 0)
    ensures Count(DrawEvents(s, f), PopFont) == Count(DrawEvents(s, f), PushFont)
  {
    if s.show {
      DrawCount(s, f, PushFont);
      DrawCount(s, f, PopFont);
      PreDrawCount(s, f, PushFont);
      PreDrawCount(s, f, PopFont);
      PostDrawCount(s, f, PushFont);
      PostDrawCount(s, f, PopFont);
    }
  }

  /** The font push comes before its pop. */
  lemma FontPushedBeforePopped(s: Series, f: Frame)
    requires WellFormed(s.config) && s.show && s.hasFont
    ensures DrawEvents(s, f)[0] == PushFont
    ensures exists j :: 0 < j < |DrawEvents(s, f)| && DrawEvents(s, f)[j] == PopFont
  {
    var ev := DrawEvents(s, f);
    var k := |PreDraw(s, f)| + 1 + |Legend(s, f)|;
    assert ev[k] == PopFont;
  }

  /** Whether the theme of `scope` exists for this frame. */
  predicate HasTheme(s: Series, f: Frame, scope: ThemeScope) {
    match scope
    case ClassTheme => f.hasClassTheme
    case ItemTheme => s.hasTheme
  }

  /** Each theme is applied at most once, only when the series is shown,
      enabled and the theme exists, and each application has exactly one
      matching custom action; a disabled series neither applies nor undoes
      any theme. */
  lemma ThemesBalanced(s: Series, f: Frame, scope: ThemeScope)
    requires WellFormed(s.config)
    ensures Count(DrawEvents(s, f), ApplyTheme(scope)) ==
      (if s.show && s.enabled && HasTheme(s, f, scope) then 1 else 0)
    ensures Count(DrawEvents(s, f), ThemeAction(scope)) == Count(DrawEvents(s, f), ApplyTheme(scope))
  {
    if s.show {
      DrawCount(s, f, ApplyTheme(scope));
      DrawCount(s, f, ThemeAction(scope));
      PreDrawCount(s, f, ApplyTheme(scope));
      PreDrawCount(s, f, ThemeAction(scope));
      PostDrawCount(s, f, ApplyTheme(scope));
      PostDrawCount(s, f, ThemeAction(scope));
    }
  }

  /** The class theme is applied before the item theme. */
  lemma ClassThemeFirst(s: Series, f: Frame)
    requires WellFormed(s.config) && s.show && s.enabled && f.hasClassTheme && s.hasTheme
    ensures exists i, j ::
      && 0 <= i < j < |DrawEvents(s, f)|
      && DrawEvents(s, f)[i] == ApplyTheme(ClassTheme)
      && DrawEvents(s, f)[j] == ApplyTheme(ItemTheme)
  {
    var ev := DrawEvents(s, f);
    var i := if s.hasFont then 1 else 0;
    assert ev[i] == ApplyTheme(ClassTheme) && ev[i + 1] == ApplyTheme(ItemTheme);
  }

  /** The legend popup is begun once per shown frame and ended only if it
      opened. */
  lemma LegendPopupBracket(s: Series, f: Frame)
    requires WellFormed(s.config)
    ensures Count(DrawEvents(s, f), BeginLegendPopup(s.itemLabel)) == (if s.show then 1 else 0)
    ensures Count(DrawEvents(s, f), EndLegendPopup) == (if s.show && f.legendOpen then 1 else 0)
  {
    if s.show {
      DrawCount(s, f, BeginLegendPopup(s.itemLabel));
      DrawCount(s, f, EndLegendPopup);
      PreDrawCount(s, f, BeginLegendPopup(s.itemLabel));
      PreDrawCount(s, f, EndLegendPopup);
      PostDrawCount(s, f, BeginLegendPopup(s.itemLabel));
      PostDrawCount(s, f, EndLegendPopup);
    }
  }

  /** Pre-draw holds only font pushes and theme applications; post-draw
      only font pops and theme custom actions. */
  lemma PrePostKinds(s: Series, f: Frame)
    ensures forall e :: e in PreDraw(s, f) ==> e == PushFont || e.ApplyTheme?
    ensures forall e :: e in PostDraw(s, f) ==> e == PopFont || e.ThemeAction?
  {
  }

  /** The order of one shown frame: font push and theme applications come
      first, then the error-bar call, then the legend popup's begin, then
      the child calls, then its end (when it opened), and last the font pop
      and the theme custom actions. The legend popup thus nests inside the
      font and theme context, and every undo follows what it undoes. */
  lemma DrawBracketOrder(s: Series, f: Frame)
    requires WellFormed(s.config) && s.show
    ensures var ev := DrawEvents(s, f);
      var p := |PreDraw(s, f)|;
      var q := |ev| - |PostDraw(s, f)|;
      var childEnd := if f.legendOpen then q - 1 else q;
      && p + 2 <= childEnd <= q <= |ev|
      && (forall i :: 0 <= i < p ==> ev[i] == PushFont || ev[i].ApplyTheme?)
      && ev[p] == ErrorBarsCall(s)
      && ev[p + 1] == BeginLegendPopup(s.itemLabel)
      && (forall i :: p + 2 <= i < childEnd ==> ev[i].DrawChild? || ev[i].UpdateChildState?)
      && (f.legendOpen ==> ev[q - 1] == EndLegendPopup)
      && (forall i :: q <= i < |ev| ==> ev[i] == PopFont || ev[i].ThemeAction?)
  {
    var ev := DrawEvents(s, f);
    var pre, post := PreDraw(s, f), PostDraw(s, f);
    var legend := Legend(s, f);
    var p := |pre|;
    assert ev == pre + [ErrorBarsCall(s)] + legend + post;
    var q := |ev| - |post|;
    PrePostKinds(s, f);
    forall i | 0 <= i < p ensures ev[i] == PushFont || ev[i].ApplyTheme? {
      assert ev[i] == pre[i] && pre[i] in pre;
    }
    forall i | q <= i < |ev| ensures ev[i] == PopFont || ev[i].ThemeAction? {
      assert ev[i] == post[i - q] && post[i - q] in post;
    }
    if f.legendOpen {
      var body := LegendEvents(s.children, f);
      assert legend == [BeginLegendPopup(s.itemLabel)] + body + [EndLegendPopup];
      forall i | p + 2 <= i < q - 1 ensures ev[i].DrawChild? || ev[i].UpdateChildState? {
        var e := ev[i];
        assert e == body[i - p - 2] && e in body;
        if IsBracketEvent(e) {
          LegendHasOnlyChildCalls(s.children, f, e);
        }
      }
    }
  }

  /** The error-bar calls of a log, in order. */
  function ErrorBarCalls(ev: seq<Event>): (r: seq<Event>)
    ensures forall e :: e in r ==> e in ev && e.PlotErrorBars?
  {
    if ev == [] then []
    else (if ev[0].PlotErrorBars? then [ev[0]] else []) + ErrorBarCalls(ev[1..])
  }

  lemma {:induction false} ErrorBarCallsAppend(a: seq<Event>, b: seq<Event>)
    ensures ErrorBarCalls(a + b) == ErrorBarCalls(a) + ErrorBarCalls(b)
  {
    if a == [] {
      assert a + b == b;
    } else {
      assert (a + b)[1..] == a[1..] + b;
      ErrorBarCallsAppend(a[1..], b);
    }
  }

  lemma {:induction false} ErrorBarCallsNone(ev: seq<Event>)
    requires forall e :: e in ev ==> !e.PlotErrorBars?
    ensures ErrorBarCalls(ev) == []
  {
    if ev != [] {
      ErrorBarCallsNone(ev[1..]);
    }
  }

  lemma ErrorBarCallsWhen(s: Series, f: Frame)
    ensures ErrorBarCalls(PreDraw(s, f)) == [] && ErrorBarCalls(PostDraw(s, f)) == []
  {
    ErrorBarCallsNone(PreDraw(s, f));
    ErrorBarCallsNone(PostDraw(s, f));
  }

  lemma ErrorBarCallsLegend(s: Series, f: Frame)
    ensures ErrorBarCalls(Legend(s, f)) == []
  {
    var legend := Legend(s, f);
    forall e | e in legend ensures !e.PlotErrorBars? {
      if e.PlotErrorBars? {
        LegendHasOnlyChildCalls(s.children, f, e);
      }
    }
    ErrorBarCallsNone(legend);
  }

  /** A shown series makes exactly one error-bar call: horizontal exactly
      when the flag is set, with the series label, the x, y, negative and
      positive slots in that order, and the length of x as the count. A
      hidden one makes none. */
  lemma OneErrorBarsCall(s: Series, f: Frame)
    requires WellFormed(s.config)
    ensures var v := s.config.slots;
      ErrorBarCalls(DrawEvents(s, f)) ==
        if s.show then [PlotErrorBars(s.config.horizontal, s.itemLabel, v[0], v[1], v[2], v[3], |v[0]|)]
        else []
  {
    if s.show {
      var pre, bars, post := PreDraw(s, f), [ErrorBarsCall(s)], PostDraw(s, f);
      var legend := Legend(s, f);
      assert DrawEvents(s, f) == pre + bars + legend + post;
      ErrorBarCallsAppend(pre + bars + legend, post);
      ErrorBarCallsAppend(pre + bars, legend);
      ErrorBarCallsAppend(pre, bars);
      ErrorBarCallsWhen(s, f);
      assert ErrorBarCalls(bars) == bars;
      ErrorBarCallsLegend(s, f);
    }
  }

  /** A series bound positionally from x=[1,2], y=[1,2], negative=[0.1,0.1],
      positive=[0.1,0.1], left vertical and shown, makes one vertical
      error-bar call with those four arrays and a count of two. */
  lemma VerticalSeriesScenario(name: string, f: Frame)
    ensures var args := [[1.0, 2.0], [1.0, 2.0], [0.1, 0.1], [0.1, 0.1]];
      var s := Series(true, true, false, false, name,
                      Config(HorizontalDefault, BindPositional([[], [], [], []], args)), []);
      ErrorBarCalls(DrawEvents(s, f)) ==
        [PlotErrorBars(false, name, [1.0, 2.0], [1.0, 2.0], [0.1, 0.1], [0.1, 0.1], 2)]
  {
    var args := [[1.0, 2.0], [1.0, 2.0], [0.1, 0.1], [0.1, 0.1]];
    BindPositionalClosedForm([[], [], [], []], args);
    assert args[..SlotCount] == args;
    var s := Series(true, true, false, false, name,
                    Config(HorizontalDefault, BindPositional([[], [], [], []], args)), []);
    OneErrorBarsCall(s, f);
  }
}
