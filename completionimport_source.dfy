/**
 * The report builder source over imported course completions: its join,
 * column, filter and parameter tables, its default columns and filters,
 * the constructor that installs them, and the display of a row's import
 * error codes.
 *
 * Language strings are kept as their identifiers; the text they stand
 * for, and the HTML list the error codes are rendered into, are not part
 * of the model.
 */
module CompletionImportSource {
  import opened Php

  /** The table a column or filter reads: the import table itself or the joined user. */
  datatype Group = Base | ImportUser

  /** The columns of the import table and of the joined user. */
  datatype Field =
    | Id | RowNumber | ImportErrorMsg | ImportEvidence | UserFullName | Username
    | ImportUserId | TimeCreated | CourseShortName | CourseIdNumber | CompletionDate | Grade

  /** The name of a group, as SQL refers to it. */
  function GroupName(g: Group): string {
    match g
    case Base => "base"
    case ImportUser => "importuser"
  }

  /** The name of a field, as SQL and the language strings refer to it. */
  function FieldName(f: Field): string {
    match f
    case Id => "id"
    case RowNumber => "rownumber"
    case ImportErrorMsg => "importerrormsg"
    case ImportEvidence => "importevidence"
    case UserFullName => "userfullname"
    case Username => "username"
    case ImportUserId => "importuserid"
    case TimeCreated => "timecreated"
    case CourseShortName => "courseshortname"
    case CourseIdNumber => "courseidnumber"
    case CompletionDate => "completiondate"
    case Grade => "grade"
  }

  /** A join: its name, kind, table expression, condition and the joins it depends on. */
  datatype Join = Join(name: Group, kind: string, table: string, condition: string, dependencies: seq<Group>)

  /** The display functions the columns use. */
  datatype DisplayFunc = ShowImportErrors | YesNo | NiceDatetime

  /** A column option: what it shows, how it is displayed and the joins it needs. */
  datatype ColumnOption = ColumnOption(group: Group, field: Field, display: Option<DisplayFunc>, joins: seq<Group>)

  datatype FilterKind = IntFilter | TextFilter | SelectFilter

  /** A filter option: what it filters, its kind, and for a select filter the function listing its choices. */
  datatype FilterOption = FilterOption(group: Group, field: Field, kind: FilterKind, selectFunc: Option<Field>)

  /** An embedded-report parameter and the column it restricts. */
  datatype ParamOption = ParamOption(name: Field, field: Field)

  /** A default column: what it shows. */
  datatype DefaultColumn = DefaultColumn(group: Group, field: Field)

  /** A default filter: what it filters and whether it is under the advanced options. */
  datatype DefaultFilter = DefaultFilter(group: Group, field: Field, advanced: bool)

  const SourceTable: string := "{totara_compl_import_course}"

  /** The language string naming a column or filter on `field` of `group`. */
  function Heading(group: Group, field: Field): string {
    "columnbase" + (if group == ImportUser then "import" else "") + FieldName(field)
  }

  /** The SQL a column or parameter reads. */
  function ColumnSql(group: Group, field: Field): string {
    GroupName(group) + "." + FieldName(field)
  }

  // ---------------------------------------------------------------------
  // The tables
  // ---------------------------------------------------------------------

  /** The joins: the importing user, with `fullname` the database's SQL for a user's full name. */
  function JoinList(fullname: string): seq<Join> {
    [Join(ImportUser, "LEFT",
          "(SELECT id, username, " + fullname + " AS userfullname FROM {user})",
          "importuser.id = base.importuserid", [Base])]
  }

  function ColumnOptions(): seq<ColumnOption> {
    [ ColumnOption(Base, Id, None, []),
      ColumnOption(Base, RowNumber, None, []),
      ColumnOption(Base, ImportErrorMsg, Some(ShowImportErrors), []),
      ColumnOption(Base, ImportEvidence, Some(YesNo), []),
      ColumnOption(ImportUser, UserFullName, None, [ImportUser]),
      ColumnOption(ImportUser, Username, None, [ImportUser]),
      ColumnOption(Base, ImportUserId, None, []),
      ColumnOption(Base, TimeCreated, Some(NiceDatetime), []),
      ColumnOption(Base, Username, None, []),
      ColumnOption(Base, CourseShortName, None, []),
      ColumnOption(Base, CourseIdNumber, None, []),
      ColumnOption(Base, CompletionDate, None, []),
      ColumnOption(Base, Grade, None, []) ]
  }

  function FilterOptions(): seq<FilterOption> {
    [ FilterOption(Base, Id, IntFilter, None),
      FilterOption(Base, RowNumber, IntFilter, None),
      FilterOption(ImportUser, UserFullName, TextFilter, None),
      FilterOption(ImportUser, Username, TextFilter, None),
      FilterOption(Base, ImportUserId, IntFilter, None),
      FilterOption(Base, TimeCreated, SelectFilter, Some(TimeCreated)),
      FilterOption(Base, Username, TextFilter, None),
      FilterOption(Base, CourseShortName, TextFilter, None),
      FilterOption(Base, CourseIdNumber, TextFilter, None),
      FilterOption(Base, CompletionDate, TextFilter, None),
      FilterOption(Base, Grade, TextFilter, None) ]
  }

  function ParamOptions(): seq<ParamOption> {
    [ ParamOption(TimeCreated, TimeCreated),
      ParamOption(ImportUserId, ImportUserId) ]
  }

  function DefaultColumns(): seq<DefaultColumn> {
    [ DefaultColumn(Base, Id), DefaultColumn(Base, RowNumber), DefaultColumn(Base, ImportErrorMsg),
      DefaultColumn(Base, ImportEvidence), DefaultColumn(ImportUser, UserFullName),
      DefaultColumn(Base, TimeCreated), DefaultColumn(Base, Username),
      DefaultColumn(Base, CourseShortName), DefaultColumn(Base, CourseIdNumber),
      DefaultColumn(Base, CompletionDate), DefaultColumn(Base, Grade) ]
  }

  /** The default filters the source defines; the constructor does not install them. */
  function DefaultFilters(): seq<DefaultFilter> {
    [ DefaultFilter(Base, Id, true), DefaultFilter(Base, RowNumber, false),
      DefaultFilter(ImportUser, UserFullName, true), DefaultFilter(Base, TimeCreated, false),
      DefaultFilter(Base, Username, true), DefaultFilter(Base, CourseShortName, true),
      DefaultFilter(Base, CourseIdNumber, true), DefaultFilter(Base, CompletionDate, true),
      DefaultFilter(Base, Grade, true) ]
  }

  // ---------------------------------------------------------------------
  // Consistency of the tables
  // ---------------------------------------------------------------------

  predicate OffersColumn(options: seq<ColumnOption>, group: Group, field: Field) {
    exists i :: 0 <= i < |options| && options[i].group == group && options[i].field == field
  }

  predicate OffersFilter(options: seq<FilterOption>, group: Group, field: Field) {
    exists i :: 0 <= i < |options| && options[i].group == group && options[i].field == field
  }

  /** Every default column is one of the column options. */
  lemma DefaultColumnsAreOffered()
    ensures forall k :: 0 <= k < |DefaultColumns()| ==> OffersColumn(ColumnOptions(), DefaultColumns()[k].group, DefaultColumns()[k].field)
  {
    var at := [0, 1, 2, 3, 4, 7, 8, 9, 10, 11, 12];
    forall k | 0 <= k < |DefaultColumns()|
      ensures OffersColumn(ColumnOptions(), DefaultColumns()[k].group, DefaultColumns()[k].field)
    {
      assert ColumnOptions()[at[k]].group == DefaultColumns()[k].group && ColumnOptions()[at[k]].field == DefaultColumns()[k].field;
    }
  }

  /** Every default filter is one of the filter options. */
  lemma DefaultFiltersAreOffered()
    ensures forall k :: 0 <= k < |DefaultFilters()| ==> OffersFilter(FilterOptions(), DefaultFilters()[k].group, DefaultFilters()[k].field)
  {
    var at := [0, 1, 2, 5, 6, 7, 8, 9, 10];
    forall k | 0 <= k < |DefaultFilters()|
      ensures OffersFilter(FilterOptions(), DefaultFilters()[k].group, DefaultFilters()[k].field)
    {
      assert FilterOptions()[at[k]].group == DefaultFilters()[k].group && FilterOptions()[at[k]].field == DefaultFilters()[k].field;
    }
  }

  /** Every filter filters something a column can show. */
  lemma FiltersHaveColumns()
    ensures forall k :: 0 <= k < |FilterOptions()| ==> OffersColumn(ColumnOptions(), FilterOptions()[k].group, FilterOptions()[k].field)
  {
    var at := [0, 1, 4, 5, 6, 7, 8, 9, 10, 11, 12];
    forall k | 0 <= k < |FilterOptions()|
      ensures OffersColumn(ColumnOptions(), FilterOptions()[k].group, FilterOptions()[k].field)
    {
      assert ColumnOptions()[at[k]].group == FilterOptions()[k].group && ColumnOptions()[at[k]].field == FilterOptions()[k].field;
    }
  }

  /** No two column options show the same thing, and no two filter options filter the same thing. */
  lemma OptionsAreUnique()
    ensures forall i, j :: 0 <= i < j < |ColumnOptions()| ==>
      (ColumnOptions()[i].group, ColumnOptions()[i].field) != (ColumnOptions()[j].group, ColumnOptions()[j].field)
    ensures forall i, j :: 0 <= i < j < |FilterOptions()| ==>
      (FilterOptions()[i].group, FilterOptions()[i].field) != (FilterOptions()[j].group, FilterOptions()[j].field)
  {
  }

  /** Every join a column needs is in the join list, and the user columns need the user join. */
  lemma ColumnJoinsAreDeclared(fullname: string)
    ensures forall c, g :: c in ColumnOptions() && g in c.joins ==> exists j :: j in JoinList(fullname) && j.name == g
    ensures forall c :: c in ColumnOptions() && c.group == ImportUser ==> ImportUser in c.joins
  {
    var cs := ColumnOptions();
    var join := JoinList(fullname)[0];
    assert join.name == ImportUser;
    forall k | 0 <= k < |cs|
      ensures cs[k].joins == (if cs[k].group == ImportUser then [ImportUser] else [])
    {
    }
  }

  // ---------------------------------------------------------------------
  // Displaying import errors
  // ---------------------------------------------------------------------

  /** The error codes of a row: the `;`-separated pieces that are not empty (nor "0"). */
  function ErrorCodes(importerrormsg: string): seq<string> {
    NonEmptyCodes(Explode(';', importerrormsg))
  }

  /** The pieces that `empty()` does not reject, in order. */
  function NonEmptyCodes(pieces: seq<string>): (codes: seq<string>)
    ensures |codes| <= |pieces|
    ensures forall c :: c in codes <==> c in pieces && !EmptyString(c)
    decreases |pieces|
  {
    if |pieces| == 0 then []
    else if EmptyString(pieces[0]) then NonEmptyCodes(pieces[1..])
    else [pieces[0]] + NonEmptyCodes(pieces[1..])
  }

  /**
   * No code is empty or holds a separator, a non-empty piece of the
   * message is a code, and there are at most one more codes than separators.
   */
  lemma ErrorCodesShape(importerrormsg: string)
    ensures forall c :: c in ErrorCodes(importerrormsg) ==> !EmptyString(c) && ';' !in c
    ensures forall c :: c in Explode(';', importerrormsg) && !EmptyString(c) ==> c in ErrorCodes(importerrormsg)
    ensures |ErrorCodes(importerrormsg)| <= Count(';', importerrormsg) + 1
  {
    ExplodeShape(';', importerrormsg);
    var pieces := Explode(';', importerrormsg);
    forall c | c in ErrorCodes(importerrormsg)
      ensures ';' !in c
    {
      var k :| 0 <= k < |pieces| && pieces[k] == c;
    }
  }

  /** A message with no text, or only separators, shows no error. */
  lemma {:induction false} NoTextNoErrors(importerrormsg: string)
    requires forall i :: 0 <= i < |importerrormsg| ==> importerrormsg[i] == ';'
    ensures ErrorCodes(importerrormsg) == []
    decreases |importerrormsg|
  {
    if |importerrormsg| > 0 {
      var rest := Explode(';', importerrormsg[1..]);
      NoTextNoErrors(importerrormsg[1..]);
      assert ([""] + rest)[1..] == rest;
    }
  }

  /** Codes joined with separators are read back as the same codes, in the same order. */
  lemma ErrorCodesRoundTrip(codes: seq<string>)
    requires |codes| >= 1
    requires forall i :: 0 <= i < |codes| ==> !EmptyString(codes[i]) && ';' !in codes[i]
    ensures ErrorCodes(Implode(';', codes)) == codes
  {
    ExplodeImplode(';', codes);
    AllNonEmptyKept(codes);
  }

  lemma {:induction false} AllNonEmptyKept(pieces: seq<string>)
    requires forall i :: 0 <= i < |pieces| ==> !EmptyString(pieces[i])
    ensures NonEmptyCodes(pieces) == pieces
    decreases |pieces|
  {
    if |pieces| > 0 {
      AllNonEmptyKept(pieces[1..]);
    }
  }

  /**
   * `rb_display_importerrormsg`: the message of each error code of the
   * row, in order; `getString` gives the message of a code.
   */
  method DisplayImportErrorMsg(importerrormsg: string, getString: string -> string) returns (errors: seq<string>)
    ensures |errors| == |ErrorCodes(importerrormsg)|
    ensures forall i :: 0 <= i < |errors| ==> errors[i] == getString(ErrorCodes(importerrormsg)[i])
  {
    errors := [];
    var errorcodes := Explode(';', importerrormsg);
    var i := 0;
    while i < |errorcodes|
      invariant 0 <= i <= |errorcodes|
      invariant |errors| == |CodesBefore(errorcodes, i)|
      invariant forall k :: 0 <= k < |errors| ==> errors[k] == getString(CodesBefore(errorcodes, i)[k])
    {
      NextCode(errorcodes, i);
      if !EmptyString(errorcodes[i]) {
        errors := errors + [getString(errorcodes[i])];
      }
      i := i + 1;
    }
    assert errorcodes[..i] == errorcodes;
  }

  /** The codes among the first `i` pieces. */
  function CodesBefore(pieces: seq<string>, i: int): seq<string>
    requires 0 <= i <= |pieces|
  {
    NonEmptyCodes(pieces[..i])
  }

  lemma NextCode(pieces: seq<string>, i: int)
    requires 0 <= i < |pieces|
    ensures CodesBefore(pieces, i + 1) == CodesBefore(pieces, i) + (if EmptyString(pieces[i]) then [] else [pieces[i]])
  {
    assert pieces[..i + 1] == pieces[..i] + [pieces[i]];
    NonEmptyCodesAppend(pieces[..i], [pieces[i]]);
  }

  lemma {:induction false} NonEmptyCodesAppend(a: seq<string>, b: seq<string>)
    ensures NonEmptyCodes(a + b) == NonEmptyCodes(a) + NonEmptyCodes(b)
    decreases |a|
  {
    if |a| > 0 {
      NonEmptyCodesAppend(a[1..], b);
      assert (a + b)[1..] == a[1..] + b;
    } else {
      assert a + b == b;
    }
  }

  // ---------------------------------------------------------------------
  // The source object
  // ---------------------------------------------------------------------

  /** `rb_source_completionimport_course` as its constructor leaves it. */
  class CompletionImportCourseSource {
    var base: string
    var joinlist: seq<Join>
    var columnoptions: seq<ColumnOption>
    var filteroptions: seq<FilterOption>
    var contentoptions: seq<string>
    var paramoptions: seq<ParamOption>
    var defaultcolumns: seq<DefaultColumn>
    var defaultfilters: seq<DefaultFilter>
    var requiredcolumns: seq<DefaultColumn>

    /** Every default column is offered, and no filter or required column is installed. */
    predicate Valid()
      reads this
    {
      && (forall k :: 0 <= k < |defaultcolumns| ==> OffersColumn(columnoptions, defaultcolumns[k].group, defaultcolumns[k].field))
      && defaultfilters == [] && requiredcolumns == []
    }

    /** The constructor; `fullname` is the database's SQL for a user's full name. */
    constructor (fullname: string)
      ensures base == SourceTable
      ensures joinlist == JoinList(fullname)
      ensures columnoptions == ColumnOptions() && filteroptions == FilterOptions()
      ensures contentoptions == [] && paramoptions == ParamOptions()
      ensures defaultcolumns == DefaultColumns()
      ensures defaultfilters == [] && requiredcolumns == []
      ensures Valid()
    {
      base := SourceTable;
      joinlist := JoinList(fullname);
      columnoptions := ColumnOptions();
      filteroptions := FilterOptions();
      contentoptions := [];
      paramoptions := ParamOptions();
      defaultcolumns := DefaultColumns();
      defaultfilters := [];
      requiredcolumns := [];
      DefaultColumnsAreOffered();
    }
  }
}
