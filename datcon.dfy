/**
 * The `datetime` class of datcon: an instant kept as `rawtime` (seconds from
 * 0000-01-01 00:00:00), the calendar tuple decoded from it, the arithmetic
 * and comparison operators that work on `rawtime`, and the field views.
 */
module Datcon {
  import opened Wrappers
  import opened Calendar
  import opened Codec
  import opened Normalizer
  import opened Extract

  /** `EpochType`: after or before Christ. */
  datatype EpochType = AC | BC

  /** The `converter` switch of the field views: 0 the stored field, 1 an exact conversion, 2 a new instance. */
  datatype Converter = Stored | Exact | SubInstant

  /** An argument of the operators and an anchor: a datetime, a number, or anything else. */
  datatype Arg = ArgInstance(dt: DateTime) | ArgNumber(n: int) | ArgOther

  /** What a field view returns: a number, a list of fields, or a new datetime. */
  datatype View = ViewNumber(x: int) | ViewList(xs: seq<int>) | ViewInstance(inst: DateTime)

  /** The field dictionary `finalize_full_datetime` starts from. */
  const Defaults: map<string, int> := map["y" := 0, "m" := 1, "d" := 1, "h" := 0, "mi" := 0, "s" := 0]

  function ArgReads(a: Arg): set<object>
  {
    if a.ArgInstance? then {a.dt} else {}
  }

  /**
   * `anchor_converter`: a number stands for itself, a datetime for its
   * `rawtime`; anything else falls through to None. The operators tell their
   * argument apart by the same three cases.
   */
  function AnchorConverter(a: Arg): (r: Option<int>)
    reads ArgReads(a)
    ensures r.None? <==> a.ArgOther?
    ensures a.ArgNumber? ==> r == Some(a.n)
    ensures a.ArgInstance? ==> r == Some(a.dt.rawtime)
  {
    match a
    case ArgInstance(dt) => Some(dt.rawtime)
    case ArgNumber(n) => Some(n)
    case ArgOther => None
  }

  /** A datetime given as anchor or operand acts as the plain number of its rawtime. */
  lemma AnchorByInstance(dt: DateTime)
    ensures AnchorConverter(ArgInstance(dt)) == AnchorConverter(ArgNumber(dt.rawtime)) == Some(dt.rawtime)
  {
  }

  /** `[::-1]`: the list read from the back. */
  function Reversed<T>(s: seq<T>): (r: seq<T>)
    ensures |r| == |s| && forall i :: 0 <= i < |s| ==> r[i] == s[|s| - 1 - i]
  {
    seq(|s|, i requires 0 <= i < |s| => s[|s| - 1 - i])
  }

  /** Reversing twice gives the list back: `[::-1]` loses and adds nothing. */
  lemma ReversedTwice<T>(s: seq<T>)
    ensures Reversed(Reversed(s)) == s
  {
  }

  /**
   * The template fill of `finalize_full_datetime`, from position `i` on:
   * position `i` of the template, when it names a key of the dictionary and
   * the value list reaches that far, sets that key to `value[i]`.
   */
  function FillFrom(template: seq<string>, value: seq<int>, i: nat, d: map<string, int>): (r: map<string, int>)
    requires d.Keys == Defaults.Keys
    ensures r.Keys == Defaults.Keys
    decreases |template| - i
  {
    if i >= |template| then d
    else FillFrom(template, value, i + 1, if template[i] in d && i < |value| then d[template[i] := value[i]] else d)
  }

  /** The dictionary after the whole template is filled. */
  function Fill(template: seq<string>, value: seq<int>): (r: map<string, int>)
    ensures r.Keys == Defaults.Keys
  {
    FillFrom(template, value, 0, Defaults)
  }

  /** A key no position from `i` on writes keeps its value. */
  lemma {:induction false} FillFromKeeps(template: seq<string>, value: seq<int>, i: nat, d: map<string, int>, k: string)
    requires d.Keys == Defaults.Keys && k in d
    requires forall j :: i <= j < |template| && j < |value| ==> template[j] != k
    ensures FillFrom(template, value, i, d)[k] == d[k]
    decreases |template| - i
  {
    if i < |template| {
      FillFromKeeps(template, value, i + 1, if template[i] in d && i < |value| then d[template[i] := value[i]] else d, k);
    }
  }

  /** The last position that names a key, within reach of the value list, decides that key. */
  lemma {:induction false} FillFromTakesLast(template: seq<string>, value: seq<int>, i: nat, d: map<string, int>, j: nat)
    requires d.Keys == Defaults.Keys
    requires i <= j < |template| && j < |value| && template[j] in Defaults
    requires forall l :: j < l < |template| && l < |value| ==> template[l] != template[j]
    ensures FillFrom(template, value, i, d)[template[j]] == value[j]
    decreases |template| - i
  {
    var d' := if template[i] in d && i < |value| then d[template[i] := value[i]] else d;
    if i < j {
      FillFromTakesLast(template, value, i + 1, d', j);
    } else {
      FillFromKeeps(template, value, i + 1, d', template[j]);
    }
  }

  /** Keys the template does not reach keep their defaults. */
  lemma FillDefaults(template: seq<string>, value: seq<int>, k: string)
    requires k in Defaults
    requires forall j :: 0 <= j < |template| && j < |value| ==> template[j] != k
    ensures Fill(template, value)[k] == Defaults[k]
  {
    FillFromKeeps(template, value, 0, Defaults, k);
  }

  /** A key the template names at position `j`, and nowhere later within reach, takes `value[j]`. */
  lemma FillTakes(template: seq<string>, value: seq<int>, j: nat)
    requires j < |template| && j < |value| && template[j] in Defaults
    requires forall l :: j < l < |template| && l < |value| ==> template[l] != template[j]
    ensures Fill(template, value)[template[j]] == value[j]
  {
    FillFromTakesLast(template, value, 0, Defaults, j);
  }

  /** The tuple the filled dictionary holds. */
  function FieldsOf(d: map<string, int>): Fields
    requires d.Keys == Defaults.Keys
  {
    Fields(d["y"], d["m"], d["d"], d["h"], d["mi"], d["s"])
  }

  /** The `rawtime` `finalize_full_datetime` stores: fill, normalise, encode with the anchor, negate for BC. */
  function FinalRawtime(template: seq<string>, value: seq<int>, anchor: int, epoch: EpochType): int
  {
    var total := Encode(Normalize(FieldsOf(Fill(template, value))), anchor);
    if epoch == BC then -total else total
  }

  /** The tuple a datetime made by `datetime.datetime(value)` holds, with no anchor and AC. */
  function CreatedParts(value: seq<int>): Fields
  {
    Decode(FinalRawtime(UnitKeys, value, 0, AC))
  }

  /**
   * The whole state of the instance `datetime.datetime(value)` makes with its
   * defaults (era AC, anchor 0, default template order), as the views build them.
   */
  predicate CreatedFrom(inst: DateTime, value: seq<int>)
    reads inst
  {
    && inst.rawtime == FinalRawtime(UnitKeys, value, 0, AC)
    && inst.data == Some(CreatedParts(value))
    && inst.output == (inst.data, Some("fulldatetime"))
    && inst.source == Some("fulldatetime")
    && inst.epochType == AC && inst.anchor == 0
    && inst.template == UnitKeys && inst.converter == Stored
  }

  /** The parts `operand` decodes for a rawtime: those of its magnitude. */
  function OperandParts(x: int): Fields
  {
    Decode(if x < 0 then -x else x)
  }

  /** The parts `operand` stores are a valid date that encodes back to the magnitude, before or after Christ alike. */
  lemma OperandPartsEncode(x: int)
    ensures Canonical(OperandParts(x)) && OperandParts(x).Y >= 0
    ensures Encode(OperandParts(x), 0) == (if x < 0 then -x else x)
    ensures OperandParts(-x) == OperandParts(x)
  {
  }

  /** Python's `a // b`: the quotient rounded down, whatever the signs. */
  function PyFloorDiv(a: int, b: int): int
    requires b != 0
  {
    if b < 0 && a % b != 0 then a / b - 1 else a / b
  }

  /** Python's `a % b`: the remainder takes the sign of the divisor, and `a == b * (a // b) + a % b`. */
  function PyMod(a: int, b: int): (r: int)
    requires b != 0
    ensures b > 0 ==> 0 <= r < b
    ensures b < 0 ==> b < r <= 0
    ensures a == b * PyFloorDiv(a, b) + r
  {
    var q := a / b;
    var m := a % b;
    assert a == b * q + m;
    if b < 0 && m != 0 then
      assert b * (q - 1) == b * q - b;
      m + b
    else
      m
  }

  /** A datetime: `Maths_Support`, `datetime_support` and `datetime` together. */
  class DateTime {
    var rawtime: int
    var anchor: int
    var converter: Converter
    var template: seq<string>
    var output: (Option<Fields>, Option<string>)
    var epochType: EpochType
    /** `data` and `source` exist only once `datetime_support.__init__` has run. */
    var data: Option<Fields>
    var source: Option<string>

    /** `datetime.__init__`: the era follows the sign of `rawtime`. */
    constructor (rawtime: int, template: seq<string>, anchor: int)
      ensures this.rawtime == rawtime && this.template == template && this.anchor == anchor
      ensures converter == Stored && output == (None, None)
      ensures epochType == (if rawtime >= 0 then AC else BC)
      ensures data == None && source == None
    {
      this.rawtime := rawtime;
      this.anchor := anchor;
      this.converter := Stored;
      this.template := template;
      this.output := (None, None);
      this.epochType := if rawtime >= 0 then AC else BC;
      this.data := None;
      this.source := None;
    }

    /** `datetime_support.__init__`: expose the two halves of `output` as `data` and `source`. */
    method SupportInit()
      modifies this
      ensures data == output.0 && source == output.1 && converter == Stored
      ensures rawtime == old(rawtime) && anchor == old(anchor) && template == old(template)
      ensures output == old(output) && epochType == old(epochType)
    {
      data := output.0;
      source := output.1;
      converter := Stored;
    }

    /** `_convert_to_`: switch the views to exact conversion. */
    method ConvertTo() returns (r: DateTime)
      modifies this
      ensures r == this && converter == Exact
      ensures rawtime == old(rawtime) && anchor == old(anchor) && template == old(template)
      ensures output == old(output) && epochType == old(epochType) && data == old(data) && source == old(source)
    {
      converter := Exact;
      r := this;
    }

    /** `_object_only_accounts_for_`: switch the views to returning new instances. */
    method ObjectOnlyAccountsFor() returns (r: DateTime)
      modifies this
      ensures r == this && converter == SubInstant
      ensures rawtime == old(rawtime) && anchor == old(anchor) && template == old(template)
      ensures output == old(output) && epochType == old(epochType) && data == old(data) && source == old(source)
    {
      converter := SubInstant;
      r := this;
    }

    /**
     * `finalize_full_datetime`: fill the dictionary, normalise, encode with the
     * anchor, negate for BC, then decode that total without taking the anchor
     * back off. The era is left as it was.
     */
    method FinalizeFullDatetime(value: seq<int>, epoch: EpochType, outputType: string)
      modifies this
      ensures rawtime == FinalRawtime(template, value, anchor, epoch)
      ensures output == (Some(Decode(rawtime)), Some(outputType))
      ensures data == Some(Decode(rawtime)) && source == Some(outputType) && converter == Stored
      ensures template == old(template) && anchor == old(anchor) && epochType == old(epochType)
    {
      var dictionary := FillDictionary(template, value);
      var full := NormalizeFull(FieldsOf(dictionary));
      var totalRaw := ConvertInputToRawtime(full, anchor);
      if epoch == BC {
        totalRaw := -totalRaw;
      }
      rawtime := totalRaw;
      var parts := ConvertRawtimeToDate(totalRaw);
      output := (Some(parts), Some(outputType));
      SupportInit();
    }

    /**
     * `operand`: a new datetime for `base - anchor` (the base negated first
     * when `reverse`), BC exactly when that is negative, holding the parts of
     * its magnitude. `data` is never set here.
     */
    static method Operand(base: Arg, anchorDate: Arg, reverse: bool) returns (r: DateTime)
      requires !base.ArgOther? && !anchorDate.ArgOther?
      ensures fresh(r)
      ensures r.rawtime == (if reverse then -AnchorConverter(base).value else AnchorConverter(base).value) - AnchorConverter(anchorDate).value
      ensures r.epochType == (if r.rawtime < 0 then BC else AC)
      ensures r.output == (Some(OperandParts(r.rawtime)), Some("fulldatetime"))
      ensures r.anchor == AnchorConverter(anchorDate).value
      ensures r.template == UnitKeys && r.converter == Stored && r.data == None && r.source == None
    {
      var baseRawtime := AnchorConverter(base).value;
      var anchorSec := AnchorConverter(anchorDate).value;
      if reverse {
        baseRawtime := -baseRawtime;
      }
      var absoluteRawtime := baseRawtime - anchorSec;
      var era, parts := EraAndParts(absoluteRawtime);
      r := new DateTime(0, UnitKeys, 0);
      r.rawtime := absoluteRawtime;
      r.epochType := era;
      r.output := (Some(parts), Some("fulldatetime"));
      r.anchor := anchorSec;
    }

    /**
     * The classmethod `datetime`: a new instance from a value list or string,
     * read in the default template order, or in reverse order when asked.
     */
    static method Create(inputValue: Value, epoch: EpochType, anchorDate: Arg, templateReverse: bool) returns (r: DateTime)
      requires ValueHandled(inputValue) && !anchorDate.ArgOther?
      ensures fresh(r)
      ensures r.template == (if templateReverse then Reversed(UnitKeys) else UnitKeys)
      ensures r.anchor == AnchorConverter(anchorDate).value
      ensures r.rawtime == FinalRawtime(r.template, ExtractedValue(inputValue), r.anchor, epoch)
      ensures r.data == Some(Decode(r.rawtime)) && r.output == (r.data, Some("fulldatetime"))
      ensures r.epochType == AC && r.converter == Stored && r.source == Some("fulldatetime")
    {
      var template := if templateReverse then Reversed(UnitKeys) else UnitKeys;
      var anchorSec := AnchorConverter(anchorDate).value;
      var value, keys := ValueTemplateExtractor(inputValue, TemplateKeys(template));
      r := new DateTime(0, keys, anchorSec);
      r.FinalizeFullDatetime(value, epoch, "fulldatetime");
    }

    /** The classmethod `stamp`: like `datetime`, with the template given as a string or a key list. */
    static method Stamp(inputValue: Value, inputTemplate: Template, epoch: EpochType, anchorDate: Arg) returns (r: DateTime)
      requires ValueHandled(inputValue) && !anchorDate.ArgOther?
      ensures fresh(r)
      ensures r.template == ExtractedTemplate(inputTemplate)
      ensures r.anchor == AnchorConverter(anchorDate).value
      ensures r.rawtime == FinalRawtime(r.template, ExtractedValue(inputValue), r.anchor, epoch)
      ensures r.data == Some(Decode(r.rawtime)) && r.output == (r.data, Some("fulldatetime"))
      ensures r.epochType == AC && r.converter == Stored && r.source == Some("fulldatetime")
    {
      var anchorSec := AnchorConverter(anchorDate).value;
      var value, keys := ValueTemplateExtractor(inputValue, inputTemplate);
      r := new DateTime(0, keys, anchorSec);
      r.FinalizeFullDatetime(value, epoch, "fulldatetime");
    }

    /** `__add__`: a new instance for the sum of the rawtimes; None for an unsupported argument. */
    method Add(other: Arg) returns (r: Option<DateTime>)
      ensures r.Some? <==> !other.ArgOther?
      ensures r.Some? ==> fresh(r.value) && r.value.rawtime == rawtime + AnchorConverter(other).value
      ensures r.Some? ==> r.value.epochType == (if r.value.rawtime < 0 then BC else AC)
      ensures r.Some? ==> r.value.output == (Some(OperandParts(r.value.rawtime)), Some("fulldatetime"))
      ensures r.Some? ==> r.value.anchor == 0 && r.value.template == UnitKeys
      ensures r.Some? ==> r.value.converter == Stored && r.value.data == None && r.value.source == None
    {
      if other.ArgInstance? {
        var sum := Operand(ArgNumber(rawtime + other.dt.rawtime), ArgNumber(0), false);
        r := Some(sum);
      } else if other.ArgNumber? {
        var sum := Operand(ArgNumber(rawtime + other.n), ArgNumber(0), false);
        r := Some(sum);
      } else {
        r := None;
      }
    }

    /** `__sub__`: a new instance for the difference of the rawtimes; None for an unsupported argument. */
    method Sub(other: Arg) returns (r: Option<DateTime>)
      ensures r.Some? <==> !other.ArgOther?
      ensures r.Some? ==> fresh(r.value) && r.value.rawtime == rawtime - AnchorConverter(other).value
      ensures r.Some? ==> r.value.epochType == (if r.value.rawtime < 0 then BC else AC)
      ensures r.Some? ==> r.value.output == (Some(OperandParts(r.value.rawtime)), Some("fulldatetime"))
      ensures r.Some? ==> r.value.anchor == 0 && r.value.template == UnitKeys
      ensures r.Some? ==> r.value.converter == Stored && r.value.data == None && r.value.source == None
    {
      if other.ArgInstance? {
        var difference := Operand(ArgNumber(rawtime - other.dt.rawtime), ArgNumber(0), false);
        r := Some(difference);
      } else if other.ArgNumber? {
        var difference := Operand(ArgNumber(rawtime - other.n), ArgNumber(0), false);
        r := Some(difference);
      } else {
        r := None;
      }
    }

    /**
     * `__mod__`: a plain number, the remainder of `rawtime` by the argument,
     * with the sign of the divisor; None for an unsupported argument.
     */
    function Mod(other: Arg): (r: Option<int>)
      reads this, ArgReads(other)
      requires AnchorConverter(other) != Some(0)
      ensures r.Some? <==> !other.ArgOther?
      ensures r.Some? ==> var b := AnchorConverter(other).value;
        && (b > 0 ==> 0 <= r.value < b) && (b < 0 ==> b < r.value <= 0) && rawtime == b * PyFloorDiv(rawtime, b) + r.value
    {
      match AnchorConverter(other)
      case Some(b) => Some(PyMod(rawtime, b))
      case None => None
    }

    /** `__eq__`. */
    function Eq(other: Arg): (r: Option<bool>)
      reads this, ArgReads(other)
      ensures r.Some? <==> !other.ArgOther?
    {
      match AnchorConverter(other)
      case Some(v) => Some(rawtime == v)
      case None => None
    }

    /** `__ne__`. */
    function Ne(other: Arg): (r: Option<bool>)
      reads this, ArgReads(other)
      ensures r.Some? <==> !other.ArgOther?
    {
      match AnchorConverter(other)
      case Some(v) => Some(rawtime != v)
      case None => None
    }

    /** `__lt__`. */
    function Lt(other: Arg): (r: Option<bool>)
      reads this, ArgReads(other)
      ensures r.Some? <==> !other.ArgOther?
    {
      match AnchorConverter(other)
      case Some(v) => Some(rawtime < v)
      case None => None
    }

    /** `__le__`. */
    function Le(other: Arg): (r: Option<bool>)
      reads this, ArgReads(other)
      ensures r.Some? <==> !other.ArgOther?
    {
      match AnchorConverter(other)
      case Some(v) => Some(rawtime <= v)
      case None => None
    }

    /** `__gt__`. */
    function Gt(other: Arg): (r: Option<bool>)
      reads this, ArgReads(other)
      ensures r.Some? <==> !other.ArgOther?
    {
      match AnchorConverter(other)
      case Some(v) => Some(rawtime > v)
      case None => None
    }

    /** `__ge__`. */
    function Ge(other: Arg): (r: Option<bool>)
      reads this, ArgReads(other)
      ensures r.Some? <==> !other.ArgOther?
    {
      match AnchorConverter(other)
      case Some(v) => Some(rawtime >= v)
      case None => None
    }

    /**
     * For a supported argument exactly one of `<`, `==`, `>` holds, and the
     * other three comparisons are their combinations.
     */
    lemma ComparisonsAgree(other: Arg)
      requires !other.ArgOther?
      ensures var lt, eq, gt := Lt(other).value, Eq(other).value, Gt(other).value;
        && (lt || eq || gt) && !(lt && eq) && !(lt && gt) && !(eq && gt)
      ensures Le(other).value == (Lt(other).value || Eq(other).value)
      ensures Ge(other).value == (Gt(other).value || Eq(other).value)
      ensures Ne(other).value == !Eq(other).value
    {
    }

    /** Two datetimes compare as their rawtimes do, in both directions. */
    lemma ComparisonIsSymmetric(other: DateTime)
      ensures Lt(ArgInstance(other)) == other.Gt(ArgInstance(this))
      ensures Eq(ArgInstance(other)) == other.Eq(ArgInstance(this))
    {
    }

    /**
     * The `year` view: the stored year, or with `_object_only_accounts_for_`
     * a new instance made from `[Y]`.
     */
    method Year() returns (v: View)
      requires data.Some? && converter != Exact
      ensures converter == Stored ==> v == ViewNumber(data.value.Y)
      ensures converter == SubInstant ==> v.ViewInstance? && fresh(v.inst) && CreatedFrom(v.inst, [data.value.Y])
    {
      if converter == SubInstant {
        var inst := Create(Numbers([data.value.Y]), AC, ArgNumber(0), false);
        v := ViewInstance(inst);
      } else {
        v := ViewNumber(data.value.Y);
      }
    }

    /** The `month` view: the stored month, or a new instance made from `[1, M]`. */
    method Month() returns (v: View)
      requires data.Some? && converter != Exact
      ensures converter == Stored ==> v == ViewNumber(data.value.M)
      ensures converter == SubInstant ==> v.ViewInstance? && fresh(v.inst) && CreatedFrom(v.inst, [1, data.value.M])
    {
      if converter == SubInstant {
        var inst := Create(Numbers([1, data.value.M]), AC, ArgNumber(0), false);
        v := ViewInstance(inst);
      } else {
        v := ViewNumber(data.value.M);
      }
    }

    /** The `day` view: the stored day, or a new instance made from `[0, 0, D]`. */
    method Day() returns (v: View)
      requires data.Some? && converter != Exact
      ensures converter == Stored ==> v == ViewNumber(data.value.D)
      ensures converter == SubInstant ==> v.ViewInstance? && fresh(v.inst) && CreatedFrom(v.inst, [0, 0, data.value.D])
    {
      if converter == SubInstant {
        var inst := Create(Numbers([0, 0, data.value.D]), AC, ArgNumber(0), false);
        v := ViewInstance(inst);
      } else {
        v := ViewNumber(data.value.D);
      }
    }

    /** The `hour` view: the stored hour, or a new instance made from `[1, 1, 1, h]`. */
    method Hour() returns (v: View)
      requires data.Some? && converter != Exact
      ensures converter == Stored ==> v == ViewNumber(data.value.h)
      ensures converter == SubInstant ==> v.ViewInstance? && fresh(v.inst) && CreatedFrom(v.inst, [1, 1, 1, data.value.h])
    {
      if converter == SubInstant {
        var inst := Create(Numbers([1, 1, 1, data.value.h]), AC, ArgNumber(0), false);
        v := ViewInstance(inst);
      } else {
        v := ViewNumber(data.value.h);
      }
    }

    /** The `minute` view: the stored minute, or a new instance made from `[1, 1, 1, 0, mi]`. */
    method Minute() returns (v: View)
      requires data.Some? && converter != Exact
      ensures converter == Stored ==> v == ViewNumber(data.value.mi)
      ensures converter == SubInstant ==> v.ViewInstance? && fresh(v.inst) && CreatedFrom(v.inst, [1, 1, 1, 0, data.value.mi])
    {
      if converter == SubInstant {
        var inst := Create(Numbers([1, 1, 1, 0, data.value.mi]), AC, ArgNumber(0), false);
        v := ViewInstance(inst);
      } else {
        v := ViewNumber(data.value.mi);
      }
    }

    /** The `second` view: the stored second, or a new instance made from `[1, 1, 1, 0, 0, s]`. */
    method Second() returns (v: View)
      requires data.Some? && converter != Exact
      ensures converter == Stored ==> v == ViewNumber(data.value.s)
      ensures converter == SubInstant ==> v.ViewInstance? && fresh(v.inst) && CreatedFrom(v.inst, [1, 1, 1, 0, 0, data.value.s])
    {
      if converter == SubInstant {
        var inst := Create(Numbers([1, 1, 1, 0, 0, data.value.s]), AC, ArgNumber(0), false);
        v := ViewInstance(inst);
      } else {
        v := ViewNumber(data.value.s);
      }
    }

    /**
     * The `time` view: stored, it is the slice `data[0:3]`, which holds the
     * year, month and day; or a new instance made from `[1, 1, 1, h, mi, s]`.
     */
    method Time() returns (v: View)
      requires data.Some? && converter != Exact
      ensures converter == Stored ==> v == ViewList([data.value.Y, data.value.M, data.value.D])
      ensures converter == SubInstant ==>
        v.ViewInstance? && fresh(v.inst) && CreatedFrom(v.inst, [1, 1, 1, data.value.h, data.value.mi, data.value.s])
    {
      var f := data.value;
      if converter == SubInstant {
        var inst := Create(Numbers([1, 1, 1, f.h, f.mi, f.s]), AC, ArgNumber(0), false);
        v := ViewInstance(inst);
      } else {
        v := ViewList([f.Y, f.M, f.D]);
      }
    }

    /**
     * The `date` view: stored, it is the slice `data[3:6]`, which holds the
     * hour, minute and second; or a new instance made from `[Y, M, D]`.
     */
    method Date() returns (v: View)
      requires data.Some? && converter != Exact
      ensures converter == Stored ==> v == ViewList([data.value.h, data.value.mi, data.value.s])
      ensures converter == SubInstant ==>
        v.ViewInstance? && fresh(v.inst) && CreatedFrom(v.inst, [data.value.Y, data.value.M, data.value.D])
    {
      var f := data.value;
      if converter == SubInstant {
        var inst := Create(Numbers([f.Y, f.M, f.D]), AC, ArgNumber(0), false);
        v := ViewInstance(inst);
      } else {
        v := ViewList([f.h, f.mi, f.s]);
      }
    }
  }

  /** The era and parts step of `operand`: BC for a negative rawtime, and the parts of its magnitude. */
  method EraAndParts(absoluteRawtime: int) returns (era: EpochType, parts: Fields)
    ensures era == (if absoluteRawtime < 0 then BC else AC)
    ensures parts == OperandParts(absoluteRawtime)
  {
    var secs := if absoluteRawtime < 0 then -absoluteRawtime else absoluteRawtime;
    era := if absoluteRawtime < 0 then BC else AC;
    parts := ConvertRawtimeToDate(secs);
  }

  /**
   * The dictionary loop of `finalize_full_datetime`: for each template
   * position, look the name up among the dictionary's keys and, if the value
   * list reaches that position, store the value there.
   */
  method FillDictionary(template: seq<string>, value: seq<int>) returns (d: map<string, int>)
    ensures d == Fill(template, value)
  {
    d := Defaults;
    for i := 0 to |template|
      invariant d.Keys == Defaults.Keys
      invariant FillFrom(template, value, i, d) == Fill(template, value)
    {
      var j := 0;
      ghost var next := if template[i] in d && i < |value| then d[template[i] := value[i]] else d;
      while j < |UnitKeys|
        invariant 0 <= j <= |UnitKeys|
        invariant forall l :: 0 <= l < j ==> UnitKeys[l] != template[i]
      {
        if template[i] == UnitKeys[j] {
          if i < |value| {
            d := d[UnitKeys[j] := value[i]];
          }
          break;
        }
        j := j + 1;
      }
      assert template[i] in Defaults <==> template[i] in UnitKeys;
      assert d == next;
    }
  }

  /** Position `j` of a value list read in the default order, or that field's default when the list is shorter. */
  function FieldOrDefault(value: seq<int>, j: nat): int
    requires j < |UnitKeys|
  {
    if j < |value| then value[j] else Defaults[UnitKeys[j]]
  }

  /** In the default template every key appears once, at its own position. */
  lemma FillUnitKeysAt(value: seq<int>, j: nat)
    requires j < |UnitKeys|
    ensures Fill(UnitKeys, value)[UnitKeys[j]] == FieldOrDefault(value, j)
  {
    if j < |value| {
      FillTakes(UnitKeys, value, j);
    } else {
      FillDefaults(UnitKeys, value, UnitKeys[j]);
    }
  }

  /** A value list read in the default order fills year, month, day, hour, minute, second in turn. */
  lemma {:induction false} FillUnitKeys(value: seq<int>)
    ensures FieldsOf(Fill(UnitKeys, value))
      == Fields(FieldOrDefault(value, 0), FieldOrDefault(value, 1), FieldOrDefault(value, 2),
                FieldOrDefault(value, 3), FieldOrDefault(value, 4), FieldOrDefault(value, 5))
  {
    FillUnitKeysAt(value, 0);
    FillUnitKeysAt(value, 1);
    FillUnitKeysAt(value, 2);
    FillUnitKeysAt(value, 3);
    FillUnitKeysAt(value, 4);
    FillUnitKeysAt(value, 5);
  }

  /** Whatever the values normalise to, when valid, is what the new instance holds. */
  lemma CreatedFromNormalized(value: seq<int>, g: Fields)
    requires Normalize(FieldsOf(Fill(UnitKeys, value))) == g && Canonical(g) && g.Y >= 0
    ensures FinalRawtime(UnitKeys, value, 0, AC) == SecondsOf(g)
    ensures CreatedParts(value) == g
  {
    EncodeIsSecondsOf(g, 0);
    DecodeEncode(g);
  }

  /** A valid date from year 1 on, read back from the values that fill it, is itself. */
  lemma CreatedCanonical(value: seq<int>, f: Fields)
    requires FieldsOf(Fill(UnitKeys, value)) == f && Canonical(f) && f.Y >= 1
    ensures FinalRawtime(UnitKeys, value, 0, AC) == SecondsOf(f)
    ensures CreatedParts(value) == f
  {
    NormalizeCanonical(f);
    CreatedFromNormalized(value, f);
  }

  /** Round trip: `datetime.datetime([Y, M, D, h, mi, s])` of a valid instant from year 1 on holds exactly that tuple. */
  lemma CreateRoundTrip(f: Fields)
    requires Canonical(f) && f.Y >= 1
    ensures FinalRawtime(UnitKeys, [f.Y, f.M, f.D, f.h, f.mi, f.s], 0, AC) == SecondsOf(f)
    ensures CreatedParts([f.Y, f.M, f.D, f.h, f.mi, f.s]) == f
  {
    FillUnitKeys([f.Y, f.M, f.D, f.h, f.mi, f.s]);
    CreatedCanonical([f.Y, f.M, f.D, f.h, f.mi, f.s], f);
  }

  /** A valid tuple comes through the clamp with only its year raised to 1. */
  lemma NormalizeLowYear(f: Fields)
    requires Canonical(f) && f.Y <= 0 && f.D <= DaysInMonth(1, f.M)
    ensures Normalize(f) == f.(Y := 1)
  {
    InstantOfCanonical(f);
    SecondsOfInjective(Unclamped(f), f);
  }

  /**
   * The `year` view as a new instance: January 1 of that year, but a year
   * of 0 or less comes back as year 1.
   */
  lemma YearViewParts(y: int)
    ensures CreatedParts([y]) == Fields(if y >= 1 then y else 1, 1, 1, 0, 0, 0)
  {
    FillUnitKeys([y]);
    var f := Fields(y, 1, 1, 0, 0, 0);
    MonthLengthIsTable(IsLeapYear(1), 1);
    if y >= 1 {
      CreatedCanonical([y], f);
    } else {
      NormalizeLowYear(f);
      CreatedFromNormalized([y], f.(Y := 1));
    }
  }

  /** The `month` view as a new instance: the first of that month in year 1. */
  lemma MonthViewParts(m: int)
    requires 1 <= m <= 12
    ensures CreatedParts([1, m]) == Fields(1, m, 1, 0, 0, 0)
  {
    FillUnitKeys([1, m]);
    CreatedCanonical([1, m], Fields(1, m, 1, 0, 0, 0));
  }

  /**
   * The `day` view as a new instance: month 0 is read as January and year 0
   * is clamped to 1, so it is that day of January, year 1.
   */
  lemma DayViewParts(d: int)
    requires 1 <= d <= 31
    ensures CreatedParts([0, 0, d]) == Fields(1, 1, d, 0, 0, 0)
  {
    FillUnitKeys([0, 0, d]);
    var f := Fields(0, 0, d, 0, 0, 0);
    MonthLengthIsTable(IsLeapYear(0), 1);
    MonthLengthIsTable(IsLeapYear(1), 1);
    assert FieldsOf(Fill(UnitKeys, [0, 0, d])) == f;
    MonthAtMostZeroIsJanuary(f);
    NormalizeLowYear(f.(M := 1));
    var g := Fields(1, 1, d, 0, 0, 0);
    assert Normalize(f) == g;
    assert Canonical(g);
    CreatedFromNormalized([0, 0, d], g);
  }

  /** The `hour`, `minute`, `second` and `time` views as new instances: that time of day on 0001-01-01. */
  lemma TimeViewParts(h: int, mi: int, s: int)
    requires 0 <= h < 24 && 0 <= mi < 60 && 0 <= s < 60
    ensures CreatedParts([1, 1, 1, h]) == Fields(1, 1, 1, h, 0, 0)
    ensures CreatedParts([1, 1, 1, 0, mi]) == Fields(1, 1, 1, 0, mi, 0)
    ensures CreatedParts([1, 1, 1, 0, 0, s]) == Fields(1, 1, 1, 0, 0, s)
    ensures CreatedParts([1, 1, 1, h, mi, s]) == Fields(1, 1, 1, h, mi, s)
  {
    FillUnitKeys([1, 1, 1, h]);
    CreatedCanonical([1, 1, 1, h], Fields(1, 1, 1, h, 0, 0));
    FillUnitKeys([1, 1, 1, 0, mi]);
    CreatedCanonical([1, 1, 1, 0, mi], Fields(1, 1, 1, 0, mi, 0));
    FillUnitKeys([1, 1, 1, 0, 0, s]);
    CreatedCanonical([1, 1, 1, 0, 0, s], Fields(1, 1, 1, 0, 0, s));
    CreateRoundTrip(Fields(1, 1, 1, h, mi, s));
  }

  /** The `date` view as a new instance: midnight of that date. */
  lemma DateViewParts(f: Fields)
    requires Canonical(f) && f.Y >= 1
    ensures CreatedParts([f.Y, f.M, f.D]) == f.(h := 0, mi := 0, s := 0)
  {
    FillUnitKeys([f.Y, f.M, f.D]);
    CreatedCanonical([f.Y, f.M, f.D], f.(h := 0, mi := 0, s := 0));
  }

  /** With `template_reverse`, a full value list is read second first: the same as the reversed list in the default order. */
  lemma {:induction false} ReversedTemplateReadsBackwards(value: seq<int>)
    requires |value| == 6
    ensures Fill(Reversed(UnitKeys), value) == Fill(UnitKeys, Reversed(value))
  {
    var t := Reversed(UnitKeys);
    var rv := Reversed(value);
    var a, b := Fill(t, value), Fill(UnitKeys, rv);
    forall j | 0 <= j < 6
      ensures a[UnitKeys[j]] == b[UnitKeys[j]]
    {
      assert t[5 - j] == UnitKeys[j];
      FillTakes(t, value, 5 - j);
      FillTakes(UnitKeys, rv, j);
    }
    forall k | k in a
      ensures a[k] == b[k]
    {
      assert k == UnitKeys[0] || k == UnitKeys[1] || k == UnitKeys[2]
        || k == UnitKeys[3] || k == UnitKeys[4] || k == UnitKeys[5];
    }
  }

  /** The anchor is added to the stored `rawtime` and nothing else about the value changes. */
  lemma AnchorAdds(template: seq<string>, value: seq<int>, anchor: int)
    ensures FinalRawtime(template, value, anchor, AC) == FinalRawtime(template, value, 0, AC) + anchor
    ensures FinalRawtime(template, value, anchor, BC) == -FinalRawtime(template, value, anchor, AC)
  {
  }

  /**
   * The anchor is never taken back off before decoding: created with an
   * anchor of one day, a valid date that is not the last of its month
   * holds the next day.
   */
  lemma OneDayAnchorShiftsData(f: Fields)
    requires Canonical(f) && f.Y >= 1 && f.D < DaysInMonth(f.Y, f.M)
    ensures Decode(FinalRawtime(UnitKeys, [f.Y, f.M, f.D, f.h, f.mi, f.s], 86400, AC)) == f.(D := f.D + 1)
  {
    var value := [f.Y, f.M, f.D, f.h, f.mi, f.s];
    CreateRoundTrip(f);
    AnchorAdds(UnitKeys, value, 86400);
    EncodeIsSecondsOf(f, 0);
    assert FinalRawtime(UnitKeys, value, 86400, AC) == Encode(f, 0) + 86400;
    AddOneDay(f);
  }

  /**
   * BC only negates the total: any instant after the first day decodes to
   * year 0, January, and a day of 0 or less, whatever the date was.
   */
  lemma BCDataIsDegenerate(template: seq<string>, value: seq<int>, anchor: int)
    requires FinalRawtime(template, value, anchor, AC) >= 86400
    ensures var t := Decode(FinalRawtime(template, value, anchor, BC));
      t.Y == 0 && t.M == 1 && t.D <= 0
  {
  }
}
