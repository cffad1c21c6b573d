/** How an error series binds host arguments to its configuration: four
    numeric slots (x, y, negative, positive) and the `horizontal` flag. */
module ErrorSeriesArgs {
  import opened HostArgs

  const SlotCount: nat := 4

  /** Slot names in the order the argument schema declares them; slot `i`
      is bound from positional argument `i` or from keyword `SlotNames[i]`. */
  const SlotNames: seq<string> := ["x", "y", "negative", "positive"]

  const HorizontalKey: string := "horizontal"

  /** Schema default of the `horizontal` keyword. */
  const HorizontalDefault: bool := false

  /** The part of an error series that argument binding reads and writes. */
  datatype Config = Config(horizontal: bool, slots: seq<seq<real>>)

  predicate WellFormed(c: Config) {
    |c.slots| == SlotCount
  }

  // ---------------------------------------------------------------------
  // Positional arguments
  // ---------------------------------------------------------------------

  /** One iteration of the positional loop: argument `i` lands in slot `i`
      when there is such a slot and is dropped otherwise. */
  function BindSlot(slots: seq<seq<real>>, i: nat, item: seq<real>): (r: seq<seq<real>>)
    requires |slots| == SlotCount
    ensures |r| == SlotCount
  {
    if i < SlotCount then slots[i := item] else slots
  }

  /** The positional loop run over the whole argument tuple, in index order. */
  function BindPositional(slots: seq<seq<real>>, args: seq<seq<real>>): (r: seq<seq<real>>)
    requires |slots| == SlotCount
    ensures |r| == SlotCount
    decreases |args|
  {
    if args == [] then slots
    else
      var n := |args| - 1;
      BindSlot(BindPositional(slots, args[..n]), n, args[n])
  }

  /** Slot `k` ends up holding argument `k` when the tuple is long enough,
      and keeps its old contents otherwise. */
  lemma {:induction false} BindPositionalAt(slots: seq<seq<real>>, args: seq<seq<real>>, k: nat)
    requires |slots| == SlotCount && k < SlotCount
    ensures BindPositional(slots, args)[k] == if k < |args| then args[k] else slots[k]
    decreases |args|
  {
    if args != [] {
      var n := |args| - 1;
      BindPositionalAt(slots, args[..n], k);
    }
  }

  /** Closed form of positional binding: the first four arguments replace
      the leading slots, the rest of the tuple is ignored. */
  lemma BindPositionalClosedForm(slots: seq<seq<real>>, args: seq<seq<real>>)
    requires |slots| == SlotCount
    ensures BindPositional(slots, args) ==
      if |args| >= SlotCount then args[..SlotCount] else args + slots[|args|..]
  {
    var r := BindPositional(slots, args);
    var expected := if |args| >= SlotCount then args[..SlotCount] else args + slots[|args|..];
    forall k | 0 <= k < SlotCount ensures r[k] == expected[k] {
      BindPositionalAt(slots, args, k);
    }
  }

  /** Arguments past the fourth never matter. */
  lemma BindPositionalIgnoresTail(slots: seq<seq<real>>, args: seq<seq<real>>, extra: seq<seq<real>>)
    requires |slots| == SlotCount && |args| >= SlotCount
    ensures BindPositional(slots, args + extra) == BindPositional(slots, args)
  {
    BindPositionalClosedForm(slots, args + extra);
    BindPositionalClosedForm(slots, args);
    assert (args + extra)[..SlotCount] == args[..SlotCount];
  }

  /** Binding the same tuple twice is the same as binding it once. */
  lemma BindPositionalIdempotent(slots: seq<seq<real>>, args: seq<seq<real>>)
    requires |slots| == SlotCount
    ensures BindPositional(BindPositional(slots, args), args) == BindPositional(slots, args)
  {
    var once := BindPositional(slots, args);
    forall k | 0 <= k < SlotCount ensures BindPositional(once, args)[k] == once[k] {
      BindPositionalAt(once, args, k);
      BindPositionalAt(slots, args, k);
    }
  }

  // ---------------------------------------------------------------------
  // Keyword arguments
  // ---------------------------------------------------------------------

  /** Overwrite slot `i` from `key` when the dictionary holds it. */
  function SlotFromKey(slots: seq<seq<real>>, d: Dict, key: string, i: nat): (r: seq<seq<real>>)
    requires i < |slots|
    ensures |r| == |slots|
  {
    if key in d then slots[i := d[key].asDoubles] else slots
  }

  /** Keyword binding: no-op on a missing dictionary; otherwise `horizontal`,
      `x`, `y`, `negative` and `positive` are each taken from the dictionary
      when present, in that order. */
  function ApplyKeywords(c: Config, dict: Option<Dict>): (r: Config)
    requires WellFormed(c)
    ensures WellFormed(r)
  {
    match dict
    case None => c
    case Some(d) =>
      var h := if HorizontalKey in d then d[HorizontalKey].asBool else c.horizontal;
      var s := SlotFromKey(c.slots, d, "x", 0);
      var s := SlotFromKey(s, d, "y", 1);
      var s := SlotFromKey(s, d, "negative", 2);
      var s := SlotFromKey(s, d, "positive", 3);
      Config(h, s)
  }

  /** What keyword binding does, field by field: a field changes only when
      its key is present, and then takes the converted value. */
  lemma ApplyKeywordsFields(c: Config, d: Dict)
    requires WellFormed(c)
    ensures ApplyKeywords(c, Some(d)).horizontal ==
      if HorizontalKey in d then d[HorizontalKey].asBool else c.horizontal
    ensures forall k :: 0 <= k < SlotCount ==>
      ApplyKeywords(c, Some(d)).slots[k] ==
        if SlotNames[k] in d then d[SlotNames[k]].asDoubles else c.slots[k]
  {
  }

  /** A missing dictionary, or one holding none of the five keys, changes
      nothing. */
  lemma ApplyKeywordsAbsent(c: Config, dict: Option<Dict>)
    requires WellFormed(c)
    requires dict.Some? ==> HorizontalKey !in dict.value && forall k :: 0 <= k < SlotCount ==> SlotNames[k] !in dict.value
    ensures ApplyKeywords(c, dict) == c
  {
    if dict.Some? {
      ApplyKeywordsFields(c, dict.value);
      var r := ApplyKeywords(c, dict);
      assert r.slots == c.slots by {
        forall k | 0 <= k < SlotCount ensures r.slots[k] == c.slots[k] {}
      }
    }
  }

  /** Applying the same dictionary twice gives the same state as once. */
  lemma ApplyKeywordsIdempotent(c: Config, dict: Option<Dict>)
    requires WellFormed(c)
    ensures ApplyKeywords(ApplyKeywords(c, dict), dict) == ApplyKeywords(c, dict)
  {
    if dict.Some? {
      var once := ApplyKeywords(c, dict);
      ApplyKeywordsFields(c, dict.value);
      ApplyKeywordsFields(once, dict.value);
      assert ApplyKeywords(once, dict).slots == once.slots by {
        forall k | 0 <= k < SlotCount ensures ApplyKeywords(once, dict).slots[k] == once.slots[k] {}
      }
    }
  }

  /** A dictionary that carries exactly the first `n` slot names. */
  predicate CarriesLeadingSlots(d: Dict, args: seq<seq<real>>) {
    && (forall k :: 0 <= k < SlotCount ==> (SlotNames[k] in d <==> k < |args|))
    && (forall k :: 0 <= k < |args| && k < SlotCount ==> d[SlotNames[k]].asDoubles == args[k])
  }

  lemma PositionalMatchesKeywordsAt(c: Config, args: seq<seq<real>>, d: Dict, k: nat)
    requires WellFormed(c) && |args| <= SlotCount && k < SlotCount
    requires CarriesLeadingSlots(d, args)
    ensures ApplyKeywords(c, Some(d)).slots[k] == BindPositional(c.slots, args)[k]
  {
    ApplyKeywordsFields(c, d);
    BindPositionalAt(c.slots, args, k);
  }

  /** The keywords that name slots follow the positional order: a
      dictionary carrying exactly the first `|args|` slot names, bound to
      the entries of `args`, fills the same slots as binding `args`
      positionally. */
  lemma PositionalMatchesKeywords(c: Config, args: seq<seq<real>>, d: Dict)
    requires WellFormed(c) && |args| <= SlotCount
    requires CarriesLeadingSlots(d, args)
    ensures ApplyKeywords(c, Some(d)).slots == BindPositional(c.slots, args)
  {
    var r := ApplyKeywords(c, Some(d)).slots;
    var b := BindPositional(c.slots, args);
    forall k | 0 <= k < SlotCount ensures r[k] == b[k] {
      PositionalMatchesKeywordsAt(c, args, d, k);
    }
  }

  // ---------------------------------------------------------------------
  // Reading the configuration back
  // ---------------------------------------------------------------------

  /** The item-specific configuration written into a host dictionary: only
      `horizontal`, as a host boolean; a missing dictionary is left missing. */
  function ReportConfiguration(c: Config, dict: Option<Dict>): (r: Option<Dict>)
    ensures r.None? <==> dict.None?
    ensures r.Some? ==> r.value.Keys == dict.value.Keys + {HorizontalKey}
    ensures r.Some? ==> r.value[HorizontalKey].asBool == c.horizontal
    ensures r.Some? ==> forall key :: key in dict.value && key != HorizontalKey ==> r.value[key] == dict.value[key]
  {
    match dict
    case None => None
    case Some(d) => Some(d[HorizontalKey := ToHostBool(c.horizontal)])
  }

  /** The reported flag is the one the last keyword binding set, or the
      earlier one when that binding did not carry it. */
  lemma ReportsLastHorizontal(c: Config, d: Dict, out: Dict)
    requires WellFormed(c)
    ensures ReportConfiguration(ApplyKeywords(c, Some(d)), Some(out)).value[HorizontalKey].asBool ==
      if HorizontalKey in d then d[HorizontalKey].asBool else c.horizontal
  {
  }

  /** Feeding a reported configuration to another error series copies the
      flag and leaves its slots alone. */
  lemma ReportThenApply(source: Config, target: Config)
    requires WellFormed(target)
    ensures ApplyKeywords(target, ReportConfiguration(source, Some(map[]))) ==
      Config(source.horizontal, target.slots)
  {
    var d := ReportConfiguration(source, Some(map[])).value;
    assert d.Keys == {HorizontalKey};
    ApplyKeywordsFields(target, d);
    var r := ApplyKeywords(target, Some(d));
    assert r.slots == target.slots by {
      forall k | 0 <= k < SlotCount ensures r.slots[k] == target.slots[k] {
        assert SlotNames[k] != HorizontalKey;
      }
    }
  }
}
