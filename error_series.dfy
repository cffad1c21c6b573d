/** The error-series plot item: parent check, argument handling and the
    per-frame draw. */
module ErrorSeries {
  import opened ItemKinds
  import opened HostArgs
  import opened ErrorSeriesArgs
  import opened ErrorSeriesDraw

  const IncompatibleParentMessage: string := "Incompatible parent. Acceptable parents include: plot axis"

  /** Outcome of the parent check: accepted, or the incompatible-parent
      error raised to the host, carrying the acceptable parent kinds. */
  datatype ParentCheck =
    | Compatible
    | IncompatibleParent(acceptable: seq<Kind>, message: string)

  /** A plot axis is the only parent an error series accepts; any other
      kind is refused with an error naming the plot axis alone. */
  function IsParentCompatible(parent: Kind): (r: ParentCheck)
    ensures r.Compatible? <==> parent == PlotAxis
    ensures r.IncompatibleParent? ==> r.acceptable == [PlotAxis] && r.message == IncompatibleParentMessage
  {
    if parent == PlotAxis then Compatible
    else IncompatibleParent([PlotAxis], IncompatibleParentMessage)
  }

  /** The error message ends by naming the plot axis. */
  lemma MessageNamesPlotAxis()
    ensures |IncompatibleParentMessage| >= 9
    ensures IncompatibleParentMessage[|IncompatibleParentMessage| - 9..] == "plot axis"
  {
  }

  /** The base-item state an error series is created with. */
  datatype ItemBase = ItemBase(
    show: bool,
    enabled: bool,
    hasFont: bool,
    hasTheme: bool,
    itemLabel: string,
    children: seq<seq<Child>>)

  class ErrorSeries {
    const uuid: nat
    var show: bool
    var enabled: bool
    var hasFont: bool
    var hasTheme: bool
    var itemLabel: string
    var children: seq<seq<Child>>
    /** The four numeric slots: x, y, negative, positive. */
    var value: array<seq<real>>
    var horizontal: bool

    ghost predicate Valid()
      reads this
    {
      value.Length == SlotCount
    }

    /** The binding-relevant configuration. */
    function Configuration(): (c: Config)
      reads this, value
      requires Valid()
      ensures WellFormed(c)
    {
      Config(horizontal, value[..])
    }

    /** Everything the draw reads. */
    function State(): (s: Series)
      reads this, value
      requires Valid()
      ensures WellFormed(s.config)
    {
      Series(show, enabled, hasFont, hasTheme, itemLabel, Configuration(), children)
    }

    /** A new series: empty slots and the schema's default orientation. */
    constructor (uuid: nat, base: ItemBase)
      ensures Valid() && fresh(value)
      ensures this.uuid == uuid
      ensures Configuration() == Config(HorizontalDefault, [[], [], [], []])
      ensures show == base.show && enabled == base.enabled
      ensures hasFont == base.hasFont && hasTheme == base.hasTheme
      ensures itemLabel == base.itemLabel && children == base.children
    {
      this.uuid := uuid;
      show, enabled := base.show, base.enabled;
      hasFont, hasTheme := base.hasFont, base.hasTheme;
      itemLabel, children := base.itemLabel, base.children;
      value := new seq<real>[SlotCount](_ => []);
      horizontal := HorizontalDefault;
    }

    /** Positional arguments. When the host's required-argument check fails
        nothing changes; otherwise argument `i` replaces slot `i` for the
        first four arguments and the rest are ignored. The flag is left
        alone. */
    method HandleRequiredArgs(args: seq<seq<real>>, verified: bool)
      requires Valid()
      modifies value
      ensures Valid()
      ensures value[..] == if verified then BindPositional(old(value[..]), args) else old(value[..])
    {
      if !verified {
        return;
      }
      ghost var before := value[..];
      var i := 0;
      while i < |args|
        invariant 0 <= i <= |args|
        invariant value[..] == BindPositional(before, args[..i])
      {
        var item := args[i];
        if i < SlotCount {
          value[i] := item;
        }
        assert args[..i + 1][..i] == args[..i];
        i := i + 1;
      }
      assert args[..|args|] == args;
    }

    /** Keyword arguments: nothing on a missing dictionary; otherwise each of
        `horizontal`, `x`, `y`, `negative` and `positive` is taken from the
        dictionary when present and kept when absent. */
    method HandleKeywordArgs(dict: Option<Dict>)
      requires Valid()
      modifies this`horizontal, value
      ensures Valid()
      ensures Configuration() == ApplyKeywords(old(Configuration()), dict)
    {
      if dict.None? {
        return;
      }
      var d := dict.value;
      if HorizontalKey in d {
        horizontal := d[HorizontalKey].asBool;
      }
      if "x" in d {
        value[0] := d["x"].asDoubles;
      }
      if "y" in d {
        value[1] := d["y"].asDoubles;
      }
      if "negative" in d {
        value[2] := d["negative"].asDoubles;
      }
      if "positive" in d {
        value[3] := d["positive"].asDoubles;
      }
    }

    /** Writes the item's own configuration into the host dictionary: the
        current flag under `horizontal`, every other key kept; nothing
        without a dictionary. */
    method GetSpecificConfiguration(dict: Option<Dict>) returns (out: Option<Dict>)
      requires Valid()
      ensures out == ReportConfiguration(Configuration(), dict)
      ensures out.Some? ==> out.value[HorizontalKey].asBool == horizontal
    {
      if dict.None? {
        return None;
      }
      out := Some(dict.value[HorizontalKey := ToHostBool(horizontal)]);
    }

    /** The legend popup's body: every shown child of every child set is
        drawn at the plot position and then has its state updated, sets in
        order and children in order; hidden children are skipped. */
    method DrawLegendChildren(f: Frame) returns (events: seq<Event>)
      ensures events == LegendEvents(children, f)
    {
      events := [];
      var i := 0;
      while i < |children|
        invariant 0 <= i <= |children|
        invariant events == LegendEvents(children[..i], f)
      {
        var childset := children[i];
        var j := 0;
        while j < |childset|
          invariant 0 <= j <= |childset|
          invariant events == LegendEvents(children[..i], f) + ChildSetEvents(childset[..j], f)
        {
          var item := childset[j];
          ghost var before := events;
          if item.show {
            events := events + [DrawChild(item.uuid, f.plotX, f.plotY)];
            events := events + [UpdateChildState(item.uuid)];
          }
          assert events == before + ChildEvents(item, f);
          ChildSetEventsStep(childset, j, f);
          j := j + 1;
        }
        assert childset[..j] == childset;
        LegendEventsStep(children, i, f);
        i := i + 1;
      }
      assert children[..i] == children;
    }

    /** One frame: the calls made to the back end, as specified by
        `DrawEvents`. */
    method Draw(f: Frame) returns (events: seq<Event>)
      requires Valid()
      ensures events == DrawEvents(State(), f)
    {
      if !show {
        return [];
      }

      // pre draw
      var pre := [];
      if hasFont {
        pre := pre + [PushFont];
      }
      if enabled {
        if f.hasClassTheme {
          pre := pre + [ApplyTheme(ClassTheme)];
        }
        if hasTheme {
          pre := pre + [ApplyTheme(ItemTheme)];
        }
      }
      assert pre == PreDraw(State(), f);

      // draw
      var xs, ys, neg, pos := value[0], value[1], value[2], value[3];
      var bars;
      if horizontal {
        bars := PlotErrorBars(true, itemLabel, xs, ys, neg, pos, |xs|);
      } else {
        bars := PlotErrorBars(false, itemLabel, xs, ys, neg, pos, |xs|);
      }
      assert bars == ErrorBarsCall(State());
      var legend := [BeginLegendPopup(itemLabel)];
      if f.legendOpen {
        var body := DrawLegendChildren(f);
        legend := legend + body + [EndLegendPopup];
      }
      assert legend == Legend(State(), f);

      // post draw
      var post := [];
      if hasFont {
        post := post + [PopFont];
      }
      if enabled {
        if f.hasClassTheme {
          post := post + [ThemeAction(ClassTheme)];
        }
        if hasTheme {
          post := post + [ThemeAction(ItemTheme)];
        }
      }
      assert post == PostDraw(State(), f);
      events := pre + [bars] + legend + post;
    }
  }
}
