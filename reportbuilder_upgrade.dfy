/**
 * The report builder's database upgrade: a chain of steps, each guarded by
 * the version it brings the plugin to, three of which rewrite stored data:
 * saved searches lose a wrapping `[0]` array, saved "course completion
 * status" searches move to the status-map format, and the export options
 * gain both PDF formats.
 *
 * Saved searches are held unserialized; the serialization round trip, the
 * schema changes and the renaming of column and filter rows are not part
 * of the model.
 */
module ReportBuilderUpgrade {
  import opened Php

  /** The version the `i`-th step brings the plugin to (counting from 0; the last one for an index outside the chain). */
  function Threshold(i: int): int
  {
    if 0 <= i < 12 then Thresholds()[i] else 2014012400
  }

  /** The versions the steps bring the plugin to, in the order they are tried. */
  function Thresholds(): (ts: seq<int>)
    ensures |ts| == 12
  {
    [2012071300, 2012071900, 2012073100, 2012081000, 2012112300, 2013021100,
     2013032700, 2013061000, 2013092400, 2013103000, 2013121000, 2014012400]
  }

  const UnwrapVersion: int := 2012081000
  const StatusVersion: int := 2012112300
  const PdfVersion: int := 2013092400

  // ---------------------------------------------------------------------
  // The version-gated step chain
  // ---------------------------------------------------------------------

  /** The thresholds of `ts` above `oldversion`, in order. */
  function StepsAbove(oldversion: int, ts: seq<int>): (r: seq<int>)
    ensures |r| <= |ts|
    decreases |ts|
  {
    if |ts| == 0 then []
    else if oldversion < ts[0] then [ts[0]] + StepsAbove(oldversion, ts[1..])
    else StepsAbove(oldversion, ts[1..])
  }

  /** The steps an upgrade from `oldversion` runs, in order. */
  function StepsRun(oldversion: int): seq<int> {
    StepsAbove(oldversion, Thresholds())
  }

  predicate StrictlyIncreasing(ts: seq<int>) {
    forall i, j :: 0 <= i < j < |ts| ==> ts[i] < ts[j]
  }

  lemma ThresholdsIncrease()
    ensures StrictlyIncreasing(Thresholds())
  {
  }

  /** A step runs exactly when the old version is below its threshold. */
  lemma {:induction false} StepsAboveMembership(oldversion: int, ts: seq<int>, t: int)
    ensures t in StepsAbove(oldversion, ts) <==> t in ts && oldversion < t
    decreases |ts|
  {
    if |ts| > 0 {
      StepsAboveMembership(oldversion, ts[1..], t);
      assert ts == [ts[0]] + ts[1..];
    }
  }

  /**
   * On increasing thresholds the steps that run are a tail of the chain:
   * once one step runs, every later one runs too, in order.
   */
  lemma {:induction false} StepsAboveIsSuffix(oldversion: int, ts: seq<int>)
    requires StrictlyIncreasing(ts)
    ensures exists k :: 0 <= k <= |ts| && StepsAbove(oldversion, ts) == ts[k..]
    decreases |ts|
  {
    if |ts| == 0 {
      assert StepsAbove(oldversion, ts) == ts[0..];
    } else if oldversion < ts[0] {
      AllAbove(oldversion, ts);
      assert StepsAbove(oldversion, ts) == ts[0..];
    } else {
      StepsAboveIsSuffix(oldversion, ts[1..]);
      var k :| 0 <= k <= |ts[1..]| && StepsAbove(oldversion, ts[1..]) == ts[1..][k..];
      assert ts[1..][k..] == ts[k + 1..];
    }
  }

  lemma {:induction false} AllAbove(oldversion: int, ts: seq<int>)
    requires forall i :: 0 <= i < |ts| ==> oldversion < ts[i]
    ensures StepsAbove(oldversion, ts) == ts
    decreases |ts|
  {
    if |ts| > 0 {
      AllAbove(oldversion, ts[1..]);
    }
  }

  /** The steps an upgrade runs come in increasing version order. */
  lemma StepsRunInOrder(oldversion: int)
    ensures StrictlyIncreasing(StepsRun(oldversion))
    ensures forall t :: t in StepsRun(oldversion) <==> t in Thresholds() && oldversion < t
  {
    StepsAboveIsSuffix(oldversion, Thresholds());
    forall t {
      StepsAboveMembership(oldversion, Thresholds(), t);
    }
  }

  /** On increasing thresholds, a newer old version runs a tail of what an older one runs. */
  lemma {:induction false} StepsAboveMonotone(older: int, newer: int, ts: seq<int>)
    requires older <= newer
    requires StrictlyIncreasing(ts)
    ensures exists k :: 0 <= k <= |StepsAbove(older, ts)| && StepsAbove(newer, ts) == StepsAbove(older, ts)[k..]
    decreases |ts|
  {
    if |ts| == 0 {
      assert StepsAbove(newer, ts) == StepsAbove(older, ts)[0..];
    } else if newer < ts[0] {
      AllAbove(older, ts);
      AllAbove(newer, ts);
      assert StepsAbove(newer, ts) == StepsAbove(older, ts)[0..];
    } else {
      StepsAboveMonotone(older, newer, ts[1..]);
      var rest := StepsAbove(older, ts[1..]);
      var k :| 0 <= k <= |rest| && StepsAbove(newer, ts[1..]) == rest[k..];
      if older < ts[0] {
        assert StepsAbove(older, ts) == [ts[0]] + rest;
        assert StepsAbove(newer, ts) == StepsAbove(older, ts)[k + 1..];
      } else {
        assert StepsAbove(newer, ts) == StepsAbove(older, ts)[k..];
      }
    }
  }

  /** Upgrading from a newer version runs a tail of what an older one runs. */
  lemma StepsRunMonotone(older: int, newer: int)
    requires older <= newer
    ensures exists k :: 0 <= k <= |StepsRun(older)| && StepsRun(newer) == StepsRun(older)[k..]
  {
    ThresholdsIncrease();
    StepsAboveMonotone(older, newer, Thresholds());
    var k :| 0 <= k <= |StepsAbove(older, Thresholds())|
      && StepsAbove(newer, Thresholds()) == StepsAbove(older, Thresholds())[k..];
    assert StepsRun(newer) == StepsRun(older)[k..];
  }

  // ---------------------------------------------------------------------
  // Saved searches: unwrapping single [0] arrays (step 2012081000)
  // ---------------------------------------------------------------------

  /** `isset($v[0])`: an array entry at 0 that is not null, or the first byte of a non-empty string. */
  predicate OffsetZeroIsSet(v: Value) {
    match v
    case Arr(a) => IntKey(0) in a && a[IntKey(0)] != Null
    case Str(s) => |s| >= 1
    case _ => false
  }

  /** `count($v)`: the number of entries of an array, 0 for null, 1 for any other value. */
  function PhpCount(v: Value): nat {
    match v
    case Arr(a) => |a|
    case Null => 0
    case _ => 1
  }

  /** `$v[0]`, where it is set. */
  function OffsetZero(v: Value): Value
    requires OffsetZeroIsSet(v)
  {
    match v
    case Arr(a) => a[IntKey(0)]
    case Str(s) => Str(s[..1])
  }

  /** The rewrite of one filter value as the step writes it. */
  function UnwrapFilterAsWritten(v: Value): Value {
    if OffsetZeroIsSet(v) && PhpCount(v) == 1 then OffsetZero(v) else v
  }

  /** As written, a filter whose value is a non-empty string is cut down to its first byte. */
  lemma StringFilterIsTruncated(s: string)
    requires |s| >= 2
    ensures UnwrapFilterAsWritten(Str(s)) == Str(s[..1]) != Str(s)
  {
    assert |s[..1]| == 1;
  }

  /** Whether a filter value is an array whose one entry is a non-null value at 0. */
  predicate IsWrappedArray(v: Value) {
    v.Arr? && |v.entries| == 1 && IntKey(0) in v.entries && v.entries[IntKey(0)] != Null
  }

  /**
   * The rewrite of one filter value as intended: an array holding only a
   * set entry at 0 is replaced by that entry; every other value is kept.
   */
  function UnwrapFilter(v: Value): (r: Value)
    ensures IsWrappedArray(v) ==> r == v.entries[IntKey(0)]
    ensures !IsWrappedArray(v) ==> r == v
  {
    if v.Arr? && OffsetZeroIsSet(v) && PhpCount(v) == 1 then OffsetZero(v) else v
  }

  /** The intended rewrite differs from the written one only on strings. */
  lemma UnwrapAgreesExceptOnStrings(v: Value)
    requires !v.Str?
    ensures UnwrapFilter(v) == UnwrapFilterAsWritten(v)
  {
  }

  /** The rewrite of a whole saved search: every filter is unwrapped, under the same key. */
  function NormaliseSearch(filters: map<Key, Value>): (r: map<Key, Value>)
    ensures r.Keys == filters.Keys
    ensures forall k :: k in filters && !IsWrappedArray(filters[k]) ==> r[k] == filters[k]
    ensures forall k :: k in filters && IsWrappedArray(filters[k]) ==> r[k] == filters[k].entries[IntKey(0)]
  {
    map k | k in filters :: UnwrapFilter(filters[k])
  }

  /** Unwrapping a search that has no wrapped filter left changes nothing. */
  lemma NormaliseSearchFixesUnwrapped(filters: map<Key, Value>)
    requires forall k :: k in filters ==> !IsWrappedArray(filters[k])
    ensures NormaliseSearch(filters) == filters
  {
  }

  // ---------------------------------------------------------------------
  // Saved searches: completion status (step 2012112300)
  // ---------------------------------------------------------------------

  const StatusFilter: string := "course_completion-status"

  const NotYetStarted: int := 10
  const InProgress: int := 25
  const Complete: int := 50
  const CompleteViaRpl: int := 75

  /** The old filter's meaning, in the terms of the new status filter. */
  datatype StatusChoice = NotCompleted | Completed

  /**
   * Which statuses the old operator/value pair selects: "is equal to"
   * (1) or "isn't equal to" (2) the completed flag '0' or '1'.  Any other
   * pair is not understood.
   */
  function StatusChoiceOf(operator: int, value: string): (r: Option<StatusChoice>)
    ensures r == Some(NotCompleted) <==>
      (operator == 1 && LooseStrEquals(value, "0")) || (operator == 2 && LooseStrEquals(value, "1"))
    ensures r.None? <==>
      !(operator in {1, 2} && (LooseStrEquals(value, "0") || LooseStrEquals(value, "1")))
  {
    if (operator == 1 && LooseStrEquals(value, "0")) || (operator == 2 && LooseStrEquals(value, "1")) then
      Some(NotCompleted)
    else if (operator == 1 && LooseStrEquals(value, "1")) || (operator == 2 && LooseStrEquals(value, "0")) then
      Some(Completed)
    else
      None
  }

  /** The status map the new filter stores: "1" for each selected completion status. */
  function StatusMap(choice: StatusChoice): Value {
    var sel, unsel := Str("1"), Str("0");
    if choice == NotCompleted then
      Arr(map[IntKey(NotYetStarted) := sel, IntKey(InProgress) := sel,
              IntKey(Complete) := unsel, IntKey(CompleteViaRpl) := unsel])
    else
      Arr(map[IntKey(NotYetStarted) := unsel, IntKey(InProgress) := unsel,
              IntKey(Complete) := sel, IntKey(CompleteViaRpl) := sel])
  }

  /** Whether the options of the status filter are ones the step converts. */
  predicate ConvertibleOptions(options: Value) {
    && options.Arr?
    && StrKey("operator") in options.entries && options.entries[StrKey("operator")].Int?
    && StrKey("value") in options.entries && options.entries[StrKey("value")].Str?
    && StatusChoiceOf(options.entries[StrKey("operator")].i, options.entries[StrKey("value")].s).Some?
  }

  /**
   * The per-record rule: the new search to store, or None when the record
   * is left alone.
   */
  function ConvertStatusSearch(data: map<Key, Value>): (r: Option<map<Key, Value>>)
    ensures r.Some? <==> StrKey(StatusFilter) in data && ConvertibleOptions(data[StrKey(StatusFilter)])
    ensures r.Some? ==> r.value.Keys == data.Keys
    ensures r.Some? ==> forall k :: k in data && k != StrKey(StatusFilter) ==> r.value[k] == data[k]
    ensures r.Some? ==>
      var old_ := data[StrKey(StatusFilter)].entries;
      var new_ := r.value[StrKey(StatusFilter)];
      && new_.Arr?
      && new_.entries.Keys == old_.Keys
      && new_.entries[StrKey("operator")] == Int(1)
      && new_.entries[StrKey("value")]
         == StatusMap(StatusChoiceOf(old_[StrKey("operator")].i, old_[StrKey("value")].s).value)
      && forall k :: k in old_ && k != StrKey("operator") && k != StrKey("value") ==> new_.entries[k] == old_[k]
  {
    var key := StrKey(StatusFilter);
    if key in data && IsSet(data[key]) && data[key].Arr? then
      var options := data[key].entries;
      if && StrKey("operator") in options && IsSet(options[StrKey("operator")])
         && StrKey("value") in options && IsSet(options[StrKey("value")])
         && options[StrKey("operator")].Int? && options[StrKey("value")].Str?
      then
        match StatusChoiceOf(options[StrKey("operator")].i, options[StrKey("value")].s)
        case None => None
        case Some(choice) =>
          var converted := options[StrKey("value") := StatusMap(choice)][StrKey("operator") := Int(1)];
          Some(data[key := Arr(converted)])
      else None
    else None
  }

  /** A converted search is not converted again: its status value is no longer a string. */
  lemma ConvertStatusSearchOnce(data: map<Key, Value>)
    requires ConvertStatusSearch(data).Some?
    ensures ConvertStatusSearch(ConvertStatusSearch(data).value).None?
  {
  }

  /** Whether a completion status counts as completed. */
  predicate IsCompleted(status: int) {
    status == Complete || status == CompleteViaRpl
  }

  /** The old filter: the completed flag compared with '0' or '1' by "equal to" (1) or "not equal to" (2). */
  predicate OldFilterSelects(operator: int, value: string, status: int) {
    var flag := LooseStrEquals(value, "1");
    if operator == 1 then IsCompleted(status) == flag else IsCompleted(status) != flag
  }

  /** The new status map selects exactly the completion statuses the old filter selected. */
  lemma StatusMapKeepsMeaning(operator: int, value: string, status: int)
    requires StatusChoiceOf(operator, value).Some?
    requires status in {NotYetStarted, InProgress, Complete, CompleteViaRpl}
    ensures var m := StatusMap(StatusChoiceOf(operator, value).value).entries;
      IntKey(status) in m && (m[IntKey(status)] == Str("1") <==> OldFilterSelects(operator, value, status))
  {
    assert ParseInt("0") == Some(0) by {
      assert ParseDigits("0") == Some(0);
    }
    assert ParseInt("1") == Some(1) by {
      assert ParseDigits("1") == Some(1);
    }
  }

  // ---------------------------------------------------------------------
  // Export options (step 2013092400)
  // ---------------------------------------------------------------------

  const PdfPortrait: bv64 := 16
  const PdfLandscape: bv64 := 32

  /** The ends of PHP's 64-bit integer range. */
  const IntMin: int := -0x8000_0000_0000_0000
  const IntMax: int := 0x7FFF_FFFF_FFFF_FFFF
  const WordRange: int := 0x1_0000_0000_0000_0000

  /**
   * A number brought into the integer range the way PHP converts an
   * overflowing numeric string: capped at the nearer end.
   */
  function Cap(i: int): (r: int)
    ensures IntMin <= r <= IntMax
    ensures IntMin <= i <= IntMax ==> r == i
    ensures i > IntMax ==> r == IntMax
    ensures i < IntMin ==> r == IntMin
  {
    if i > IntMax then IntMax else if i < IntMin then IntMin else i
  }

  /** `(int)$v` for the values a setting can hold; strings of other forms read as 0. */
  function IntValue(v: Value): (r: int)
    ensures IntMin <= r <= IntMax
  {
    match v
    case Null => 0
    case Bool(b) => if b then 1 else 0
    case Int(i) => Cap(i)
    case Str(s) => (match ParseInt(s) case Some(n) => Cap(n) case None => 0)
    case Arr(a) => if a == map[] then 0 else 1
  }

  /** An integer as the 64-bit two's-complement word PHP's bitwise operators work on. */
  function ToBits(i: int): bv64
    requires IntMin <= i <= IntMax
  {
    (if i < 0 then i + WordRange else i) as bv64
  }

  /** The integer a 64-bit two's-complement word stands for. */
  function FromBits(w: bv64): (r: int)
    ensures IntMin <= r <= IntMax
  {
    if w as int > IntMax then w as int - WordRange else w as int
  }

  /** The current export options as a word: a missing (null) setting reads as 0. */
  function OptionsWord(current: Value): bv64 {
    if current.Null? then 0 else ToBits(IntValue(current))
  }

  /**
   * The new export options: the current ones with both PDF formats added.
   * Every option that was on stays on, and nothing else is switched on.
   */
  function NewExportOptions(current: Value): (r: bv64)
    ensures r & OptionsWord(current) == OptionsWord(current)
    ensures r & PdfPortrait == PdfPortrait && r & PdfLandscape == PdfLandscape
    ensures r & !(OptionsWord(current) | PdfPortrait | PdfLandscape) == 0
  {
    OptionsWord(current) | PdfPortrait | PdfLandscape
  }

  /** The setting as stored: the decimal text of the (signed) integer result. */
  function StoredExportOptions(current: Value): Value {
    Str(IntToString(FromBits(NewExportOptions(current))))
  }

  /** A word read back from the integer it stands for is the same word. */
  lemma WordRoundTrip(w: bv64)
    ensures ToBits(FromBits(w)) == w
  {
    if w as int > IntMax {
      assert FromBits(w) + WordRange == w as int;
    }
    assert (w as int) as bv64 == w;
  }

  /** Adding the PDF formats to options that already have them changes nothing. */
  lemma PdfAlreadyOn(w: bv64)
    requires w & PdfPortrait == PdfPortrait && w & PdfLandscape == PdfLandscape
    ensures w | PdfPortrait | PdfLandscape == w
  {
  }

  /** A word stands for a negative integer exactly when its top bit is set. */
  lemma SignOfWord(w: bv64)
    ensures FromBits(w) < 0 <==> w >= 0x8000_0000_0000_0000
  {
    var top: bv64 := 0x8000_0000_0000_0000;
    assert top as int == IntMax + 1;
    if w >= top {
      assert w as int >= top as int;
    } else {
      assert w as int < top as int;
    }
  }

  /** Or-ing in the PDF formats leaves the top (sign) bit as it was. */
  lemma SignBitKept(w: bv64)
    ensures w | PdfPortrait | PdfLandscape >= 0x8000_0000_0000_0000 <==> w >= 0x8000_0000_0000_0000
  {
  }

  /**
   * The stored options read back as the integer the bitwise-or gave, and
   * that integer is negative exactly when the current options were: the
   * step never changes the sign.
   */
  lemma StoredOptionsReadBack(current: Value)
    ensures IntValue(StoredExportOptions(current)) == FromBits(NewExportOptions(current))
    ensures FromBits(NewExportOptions(current)) < 0 <==> FromBits(OptionsWord(current)) < 0
  {
    var r := NewExportOptions(current);
    IntToStringRoundTrip(FromBits(r));
    var w := OptionsWord(current);
    SignBitKept(w);
    SignOfWord(w);
    SignOfWord(r);
  }

  /** Running the step a second time on what it stored changes nothing. */
  lemma ExportOptionsIdempotent(current: Value)
    ensures StoredExportOptions(StoredExportOptions(current)) == StoredExportOptions(current)
  {
    var r := NewExportOptions(current);
    StoredOptionsReadBack(current);
    WordRoundTrip(r);
    assert OptionsWord(StoredExportOptions(current)) == r;
    PdfAlreadyOn(r);
  }

  /** A setting of "-1" (every option on) is stored again as "-1". */
  lemma AllOptionsKept()
    ensures StoredExportOptions(Str("-1")) == Str("-1")
  {
    assert ParseDigits("1") == Some(1);
    assert IntValue(Str("-1")) == -1;
    var all: bv64 := 0xFFFF_FFFF_FFFF_FFFF;
    assert all as int == WordRange - 1;
    assert OptionsWord(Str("-1")) == all;
    assert all | PdfPortrait | PdfLandscape == all;
    assert FromBits(all) == -1;
    assert NatToString(1) == "1";
  }

  // ---------------------------------------------------------------------
  // The upgrade as it runs against the site's data
  // ---------------------------------------------------------------------

  /** A row of the saved-search table: its id, the source of its report and its unserialized filters. */
  datatype SavedSearch = SavedSearch(id: int, reportSource: string, search: map<Key, Value>)

  /** One saved search after the unwrap step. */
  function UnwrapRecord(rec: SavedSearch): SavedSearch {
    rec.(search := NormaliseSearch(rec.search))
  }

  /** One saved search after the status step: only course-completion reports are looked at. */
  function ConvertRecord(rec: SavedSearch): SavedSearch {
    if rec.reportSource != "course_completion" then rec
    else match ConvertStatusSearch(rec.search)
      case None => rec
      case Some(d) => rec.(search := d)
  }

  /** The saved-search table after the unwrap step: every row rewritten in place. */
  function UnwrapAll(saved: seq<SavedSearch>): (r: seq<SavedSearch>)
    ensures |r| == |saved|
    ensures forall i :: 0 <= i < |saved| ==> r[i] == UnwrapRecord(saved[i])
  {
    seq(|saved|, i requires 0 <= i < |saved| => UnwrapRecord(saved[i]))
  }

  /** The saved-search table after the status step. */
  function ConvertAll(saved: seq<SavedSearch>): (r: seq<SavedSearch>)
    ensures |r| == |saved|
    ensures forall i :: 0 <= i < |saved| ==> r[i] == ConvertRecord(saved[i])
  {
    seq(|saved|, i requires 0 <= i < |saved| => ConvertRecord(saved[i]))
  }

  /** Both steps keep every row's id and report source; only searches change. */
  lemma StepsKeepRows(saved: seq<SavedSearch>, i: int)
    requires 0 <= i < |saved|
    ensures UnwrapAll(saved)[i].id == saved[i].id && UnwrapAll(saved)[i].reportSource == saved[i].reportSource
    ensures ConvertAll(saved)[i].id == saved[i].id && ConvertAll(saved)[i].reportSource == saved[i].reportSource
    ensures saved[i].reportSource != "course_completion" ==> ConvertAll(saved)[i] == saved[i]
  {
  }

  /**
   * The report builder settings the upgrade writes: `financialyear`,
   * `exporttofilesystem` and `exportoptions`.  Settings it does not touch
   * are not part of the model.
   */
  datatype Setting = FinancialYear | ExportToFileSystem | ExportOptions

  /** `get_config('reportbuilder', $name)`: false when the setting is absent. */
  function GetConfig(config: map<Setting, Value>, name: Setting): Value {
    if name in config then config[name] else Bool(false)
  }

  /** The settings after the 2012 steps. */
  function ConfigAfter2012(config: map<Setting, Value>, oldversion: int): map<Setting, Value> {
    if oldversion < 2012073100 then config[FinancialYear := Str("0107")] else config
  }

  /** The settings after the 2013 and 2014 steps. */
  function ConfigAfter2013(config: map<Setting, Value>, oldversion: int): map<Setting, Value> {
    var c := if oldversion < 2013061000 then config[ExportToFileSystem := Str("0")] else config;
    if oldversion < PdfVersion then c[ExportOptions := StoredExportOptions(GetConfig(c, ExportOptions))] else c
  }

  /** The settings after an upgrade from `oldversion`. */
  function ConfigAfter(config: map<Setting, Value>, oldversion: int): map<Setting, Value> {
    ConfigAfter2013(ConfigAfter2012(config, oldversion), oldversion)
  }

  /** The saved searches after an upgrade from `oldversion`. */
  function SavedAfter(saved: seq<SavedSearch>, oldversion: int): seq<SavedSearch> {
    var s1 := if oldversion < UnwrapVersion then UnwrapAll(saved) else saved;
    if oldversion < StatusVersion then ConvertAll(s1) else s1
  }

  /** The data of the report builder that the upgrade reads and writes. */
  class ReportBuilderSite {
    /** The saved-search table, in the order the database returns its rows. */
    var saved: seq<SavedSearch>
    /** The report builder's settings, by name. */
    var config: map<Setting, Value>
    /** The versions recorded so far, in the order they were recorded. */
    var savepoints: seq<int>

    constructor (saved: seq<SavedSearch>, config: map<Setting, Value>)
      ensures this.saved == saved && this.config == config && savepoints == []
    {
      this.saved := saved;
      this.config := config;
      savepoints := [];
    }

    /** `totara_upgrade_mod_savepoint`: records that the plugin reached `version`. */
    method Savepoint(version: int)
      modifies this
      ensures savepoints == old(savepoints) + [version]
      ensures saved == old(saved) && config == old(config)
    {
      savepoints := savepoints + [version];
    }

    /** `set_config($name, $value, 'reportbuilder')`. */
    method SetConfig(name: Setting, value: Value)
      modifies this
      ensures config == old(config)[name := value]
      ensures saved == old(saved) && savepoints == old(savepoints)
    {
      config := config[name := value];
    }

    /** Step 2012081000: every saved search is read, unwrapped and written back. */
    method UnwrapSavedSearches()
      modifies this
      ensures saved == UnwrapAll(old(saved))
      ensures config == old(config) && savepoints == old(savepoints)
    {
      var i := 0;
      while i < |saved|
        invariant 0 <= i <= |saved| == |old(saved)|
        invariant forall j :: 0 <= j < i ==> saved[j] == UnwrapRecord(old(saved)[j])
        invariant forall j :: i <= j < |saved| ==> saved[j] == old(saved)[j]
        invariant config == old(config) && savepoints == old(savepoints)
      {
        var record := saved[i];
        saved := saved[i := record.(search := NormaliseSearch(record.search))];
        i := i + 1;
      }
    }

    /**
     * Step 2012112300: the saved searches of course-completion reports are
     * read, and those whose status filter is understood are written back
     * in the new format.
     */
    method ConvertStatusSearches()
      modifies this
      ensures saved == ConvertAll(old(saved))
      ensures config == old(config) && savepoints == old(savepoints)
    {
      var i := 0;
      while i < |saved|
        invariant 0 <= i <= |saved| == |old(saved)|
        invariant forall j :: 0 <= j < i ==> saved[j] == ConvertRecord(old(saved)[j])
        invariant forall j :: i <= j < |saved| ==> saved[j] == old(saved)[j]
        invariant config == old(config) && savepoints == old(savepoints)
      {
        var record := saved[i];
        if record.reportSource == "course_completion" {
          match ConvertStatusSearch(record.search) {
            case None =>
            case Some(data) =>
              saved := saved[i := record.(search := data)];
          }
        }
        i := i + 1;
      }
    }

    /** Step 2013092400: both PDF formats join the default export options. */
    method AddPdfExportOptions()
      modifies this
      ensures config == old(config)[ExportOptions := StoredExportOptions(GetConfig(old(config), ExportOptions))]
      ensures saved == old(saved) && savepoints == old(savepoints)
    {
      var current := GetConfig(config, ExportOptions);
      SetConfig(ExportOptions, StoredExportOptions(current));
    }

    /** The steps of 2012, from 2012071300 to 2012112300, as the upgrade runs them. */
    method Upgrade2012(oldversion: int)
      modifies this
      ensures savepoints == old(savepoints) + StepsBetween(oldversion, 0, 5)
      ensures saved == SavedAfter(old(saved), oldversion)
      ensures config == ConfigAfter2012(old(config), oldversion)
    {
      ghost var log0, saved0 := savepoints, saved;
      if oldversion < 2012071300 {
        // renames the assignment description column and filter rows
        Savepoint(2012071300);
      }
      LogStep(log0, oldversion, 0, 0);
      assert savepoints == log0 + StepsBetween(oldversion, 0, 1);
      if oldversion < 2012071900 {
        // renames the aggregated user column and filter rows
        Savepoint(2012071900);
      }
      LogStep(log0, oldversion, 0, 1);
      assert savepoints == log0 + StepsBetween(oldversion, 0, 2);
      if oldversion < 2012073100 {
        SetConfig(FinancialYear, Str("0107"));
        Savepoint(2012073100);
      }
      LogStep(log0, oldversion, 0, 2);
      assert savepoints == log0 + StepsBetween(oldversion, 0, 3);
      assert config == ConfigAfter2012(old(config), oldversion);
      if oldversion < 2012081000 {
        UnwrapSavedSearches();
        Savepoint(2012081000);
      }
      LogStep(log0, oldversion, 0, 3);
      assert savepoints == log0 + StepsBetween(oldversion, 0, 4);
      assert saved == (if oldversion < UnwrapVersion then UnwrapAll(saved0) else saved0);
      if oldversion < 2012112300 {
        ConvertStatusSearches();
        Savepoint(2012112300);
      }
      LogStep(log0, oldversion, 0, 4);
      assert savepoints == log0 + StepsBetween(oldversion, 0, 5);
    }

    /** The steps of early 2013, from 2013021100 to 2013061000, as the upgrade runs them. */
    method UpgradeEarly2013(oldversion: int)
      modifies this
      ensures savepoints == old(savepoints) + StepsBetween(oldversion, 5, 8)
      ensures saved == old(saved)
      ensures config == (if oldversion < 2013061000 then old(config)[ExportToFileSystem := Str("0")] else old(config))
    {
      ghost var log0 := savepoints;
      if oldversion < 2013021100 {
        // adds the cache fields and table
        Savepoint(2013021100);
      }
      LogStep(log0, oldversion, 5, 5);
      assert savepoints == log0 + StepsBetween(oldversion, 5, 6);
      if oldversion < 2013032700 {
        // adds the initial-display field
        Savepoint(2013032700);
      }
      LogStep(log0, oldversion, 5, 6);
      assert savepoints == log0 + StepsBetween(oldversion, 5, 7);
      if oldversion < 2013061000 {
        // adds the export-to-file-system field
        SetConfig(ExportToFileSystem, Str("0"));
        Savepoint(2013061000);
      }
      LogStep(log0, oldversion, 5, 7);
      assert savepoints == log0 + StepsBetween(oldversion, 5, 8);
    }

    /** The steps of late 2013, from 2013092400 to 2013121000, as the upgrade runs them. */
    method UpgradeLate2013(oldversion: int)
      modifies this
      ensures savepoints == old(savepoints) + StepsBetween(oldversion, 8, 11)
      ensures saved == old(saved)
      ensures config == (if oldversion < PdfVersion
        then old(config)[ExportOptions := StoredExportOptions(GetConfig(old(config), ExportOptions))]
        else old(config))
    {
      ghost var log0 := savepoints;
      if oldversion < 2013092400 {
        // adds the filter-name fields
        AddPdfExportOptions();
        Savepoint(2013092400);
      }
      LogStep(log0, oldversion, 8, 8);
      assert savepoints == log0 + StepsBetween(oldversion, 8, 9);
      if oldversion < 2013103000 {
        // adds foreign keys
        Savepoint(2013103000);
      }
      LogStep(log0, oldversion, 8, 9);
      assert savepoints == log0 + StepsBetween(oldversion, 8, 10);
      if oldversion < 2013121000 {
        // renames the certification completion column and filter rows
        Savepoint(2013121000);
      }
      LogStep(log0, oldversion, 8, 10);
      assert savepoints == log0 + StepsBetween(oldversion, 8, 11);
    }

    /** The step of 2014, 2014012400, which only changes the schema. */
    method Upgrade2014(oldversion: int)
      modifies this
      ensures savepoints == old(savepoints) + StepsBetween(oldversion, 11, 12)
      ensures saved == old(saved) && config == old(config)
    {
      if oldversion < 2014012400 {
        // widens the heading and filter-name fields
        Savepoint(2014012400);
      }
    }

    /**
     * `xmldb_totara_reportbuilder_upgrade`: each step runs when the old
     * version is below the step's version, and records that version.  The
     * upgrade always reports success.
     */
    method Upgrade(oldversion: int) returns (ok: bool)
      modifies this
      ensures ok
      ensures savepoints == old(savepoints) + StepsRun(oldversion)
      ensures saved == SavedAfter(old(saved), oldversion)
      ensures config == ConfigAfter(old(config), oldversion)
    {
      ghost var log0 := savepoints;
      Upgrade2012(oldversion);
      ghost var log5 := savepoints;
      UpgradeEarly2013(oldversion);
      UpgradeLate2013(oldversion);
      AppendAssoc(log5, StepsBetween(oldversion, 5, 8), StepsBetween(oldversion, 8, 11));
      StepsBetweenSplit(oldversion, 5, 8, 11);
      Upgrade2014(oldversion);
      AppendAssoc(log5, StepsBetween(oldversion, 5, 11), StepsBetween(oldversion, 11, 12));
      StepsBetweenSplit(oldversion, 5, 11, 12);
      AppendAssoc(log0, StepsBetween(oldversion, 0, 5), StepsBetween(oldversion, 5, 12));
      StepsBetweenSplit(oldversion, 0, 5, 12);
      StepsBetweenIsSlice(oldversion, 0, 12);
      assert Thresholds()[0..12] == Thresholds();
      ok := true;
    }
  }

  lemma AppendAssoc(a: seq<int>, b: seq<int>, c: seq<int>)
    ensures (a + b) + c == a + (b + c)
  {
  }

  /** The log after one more step of the chain, from the log before it. */
  lemma LogStep(log: seq<int>, oldversion: int, lo: nat, k: nat)
    requires lo <= k
    ensures oldversion < Threshold(k) ==>
      log + StepsBetween(oldversion, lo, k + 1) == (log + StepsBetween(oldversion, lo, k)) + [Threshold(k)]
    ensures oldversion >= Threshold(k) ==>
      log + StepsBetween(oldversion, lo, k + 1) == log + StepsBetween(oldversion, lo, k)
  {
  }

  /** Adding a threshold at the end adds it to the steps exactly when the old version is below it. */
  lemma {:induction false} StepsAboveSnoc(oldversion: int, ts: seq<int>, t: int)
    ensures StepsAbove(oldversion, ts + [t]) == StepsAbove(oldversion, ts) + (if oldversion < t then [t] else [])
    decreases |ts|
  {
    if |ts| == 0 {
      assert ts + [t] == [t];
    } else {
      StepsAboveSnoc(oldversion, ts[1..], t);
      assert (ts + [t])[1..] == ts[1..] + [t];
    }
  }

  /** The steps run from `oldversion` among thresholds `lo` to `hi - 1`, built step by step as the upgrade runs them. */
  function StepsBetween(oldversion: int, lo: nat, hi: nat): seq<int>
    decreases hi
  {
    if hi <= lo then []
    else StepsBetween(oldversion, lo, hi - 1) + (if oldversion < Threshold(hi - 1) then [Threshold(hi - 1)] else [])
  }

  lemma {:induction false} StepsBetweenIsSlice(oldversion: int, lo: nat, hi: nat)
    requires lo <= hi <= 12
    ensures StepsBetween(oldversion, lo, hi) == StepsAbove(oldversion, Thresholds()[lo..hi])
    decreases hi
  {
    var ts := Thresholds();
    if hi == lo {
      assert ts[lo..hi] == [];
    } else {
      StepsBetweenIsSlice(oldversion, lo, hi - 1);
      var t := ts[hi - 1];
      assert t == Threshold(hi - 1);
      SliceSnoc(ts, lo, hi);
      StepsAboveSnoc(oldversion, ts[lo..hi - 1], t);
      assert StepsBetween(oldversion, lo, hi)
        == StepsBetween(oldversion, lo, hi - 1) + (if oldversion < t then [t] else []);
    }
  }

  lemma SliceSnoc(ts: seq<int>, lo: nat, hi: nat)
    requires lo < hi <= |ts|
    ensures ts[lo..hi] == ts[lo..hi - 1] + [ts[hi - 1]]
  {
  }

  lemma {:induction false} StepsBetweenSplit(oldversion: int, lo: nat, mid: nat, hi: nat)
    requires lo <= mid <= hi
    ensures StepsBetween(oldversion, lo, hi) == StepsBetween(oldversion, lo, mid) + StepsBetween(oldversion, mid, hi)
    decreases hi
  {
    if hi == mid {
      assert StepsBetween(oldversion, mid, hi) == [];
    } else {
      StepsBetweenSplit(oldversion, lo, mid, hi - 1);
    }
  }
}
