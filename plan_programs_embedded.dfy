/**
 * The embedded "record of learning: programs" report.  Its constructor
 * fixes the report's source, columns and filters, and builds the
 * parameters that restrict the report's rows from the data it is given
 * and from whether the viewer may see hidden programs.
 */
module PlanProgramsEmbedded {
  import opened Php
  import opened EmbeddedReport

  /** STATUS_PROGRAM_COMPLETE. */
  const StatusProgramComplete := 1

  /** The restricting parameters this report may set. */
  datatype Param = Category | UserId | ProgramStatus | RolStatus | ExceptionStatus | VisibleOnly

  /** The parameter's key in the report's parameter array. */
  function ParamName(p: Param): string {
    match p
    case Category => "category"
    case UserId => "userid"
    case ProgramStatus => "programstatus"
    case RolStatus => "rolstatus"
    case ExceptionStatus => "exceptionstatus"
    case VisibleOnly => "visible"
  }

  lemma ParamNamesDistinct(p: Param, q: Param)
    ensures ParamName(p) == ParamName(q) ==> p == q
  {
  }

  function PlanColumns(): (cs: seq<ReportColumn>)
    ensures |cs| == 6
  {
    [ ReportColumn("program", "proglinkicon"),
      ReportColumn("program", "mandatory"),
      ReportColumn("program", "recurring"),
      ReportColumn("program", "timedue"),
      ReportColumn("program_completion_history", "program_completion_history_link"),
      ReportColumn("program_completion", "status") ]
  }

  function PlanFilters(): (fs: seq<ReportFilter>)
    ensures |fs| == 3
  {
    [ ReportFilter("program", "fullname", false),
      ReportFilter("course_category", "id", true),
      ReportFilter("program_completion_history", "program_completion_history_count", true) ]
  }
  /** The report's columns are distinct options, and so are its filters. */
  lemma PlanOptionsDistinct()
    ensures DistinctColumns(PlanColumns())
    ensures DistinctFilters(PlanFilters())
  {
  }


  /**
   * The program status a record-of-learning status asks for: "active"
   * asks for programs not complete, "completed" for complete ones, and
   * anything else for no restriction (null).  The comparison is the loose
   * one of a `switch`.
   */
  function ProgramStatusFor(rolstatus: Value): (r: Value)
    ensures r == Null || r == Str("!" + IntToString(StatusProgramComplete)) || r == Int(StatusProgramComplete)
  {
    if SwitchMatches(rolstatus, "active") then Str("!" + IntToString(StatusProgramComplete))
    else if SwitchMatches(rolstatus, "completed") then Int(StatusProgramComplete)
    else Null
  }

  /**
   * The parameters the constructor builds, in the order it adds them: the
   * site course's category is always excluded, a given user, record of
   * learning status or exception status is passed on, and viewers who may
   * not see hidden programs see only visible ones.
   */
  function PlanParams(data: map<string, Value>, canViewHidden: bool): map<Param, Value> {
    var userid := Lookup(data, "userid");
    var rolstatus := Lookup(data, "rolstatus");
    var exceptionstatus := Lookup(data, "exceptionstatus");
    var withCategory := map[Category := Str("!0")];
    var withUser := if IsSet(userid) then withCategory[UserId := userid] else withCategory;
    var withStatus :=
      if IsSet(rolstatus) then withUser[ProgramStatus := ProgramStatusFor(rolstatus)][RolStatus := rolstatus]
      else withUser;
    var withException :=
      if IsSet(exceptionstatus) then withStatus[ExceptionStatus := exceptionstatus] else withStatus;
    if canViewHidden then withException else withException[VisibleOnly := Int(1)]
  }

  /** The site course's category "0" is always excluded. */
  lemma CategoryAlwaysExcluded(data: map<string, Value>, canViewHidden: bool)
    ensures Category in PlanParams(data, canViewHidden)
    ensures PlanParams(data, canViewHidden)[Category] == Str("!0")
  {
  }

  /** The user and the exception status are passed on exactly when given and not null. */
  lemma OptionalParamsPassedOn(data: map<string, Value>, canViewHidden: bool)
    ensures UserId in PlanParams(data, canViewHidden) <==> "userid" in data && data["userid"] != Null
    ensures UserId in PlanParams(data, canViewHidden) ==> PlanParams(data, canViewHidden)[UserId] == data["userid"]
    ensures ExceptionStatus in PlanParams(data, canViewHidden) <==> "exceptionstatus" in data && data["exceptionstatus"] != Null
    ensures ExceptionStatus in PlanParams(data, canViewHidden) ==>
      PlanParams(data, canViewHidden)[ExceptionStatus] == data["exceptionstatus"]
  {
  }

  /**
   * A given record-of-learning status is echoed back and sets the program
   * status: "active" gives "!1", "completed" gives 1, any other text null.
   */
  lemma RolStatusSetsProgramStatus(data: map<string, Value>, canViewHidden: bool, s: string)
    requires "rolstatus" in data && data["rolstatus"] == Str(s)
    ensures RolStatus in PlanParams(data, canViewHidden) && PlanParams(data, canViewHidden)[RolStatus] == Str(s)
    ensures ProgramStatus in PlanParams(data, canViewHidden)
    ensures s == "active" <==> PlanParams(data, canViewHidden)[ProgramStatus] == Str("!1")
    ensures s == "completed" <==> PlanParams(data, canViewHidden)[ProgramStatus] == Int(1)
    ensures s != "active" && s != "completed" <==> PlanParams(data, canViewHidden)[ProgramStatus] == Null
  {
    assert IntToString(StatusProgramComplete) == "1";
  }

  /** Without a record-of-learning status there is no program status either. */
  lemma NoRolStatusNoProgramStatus(data: map<string, Value>, canViewHidden: bool)
    requires "rolstatus" !in data || data["rolstatus"] == Null
    ensures ProgramStatus !in PlanParams(data, canViewHidden)
    ensures RolStatus !in PlanParams(data, canViewHidden)
  {
  }

  /**
   * A record-of-learning status of integer 0 compares loosely equal to
   * the first case, "active".
   */
  lemma ZeroRolStatusIsActive(data: map<string, Value>, canViewHidden: bool)
    requires "rolstatus" in data && data["rolstatus"] == Int(0)
    ensures PlanParams(data, canViewHidden)[ProgramStatus] == Str("!1")
  {
    assert IntToString(StatusProgramComplete) == "1";
  }

  /** Only viewers without the hidden-programs capability are restricted to visible programs. */
  lemma VisibleOnlyWithoutCapability(data: map<string, Value>, canViewHidden: bool)
    ensures VisibleOnly in PlanParams(data, canViewHidden) <==> !canViewHidden
    ensures VisibleOnly in PlanParams(data, canViewHidden) ==> PlanParams(data, canViewHidden)[VisibleOnly] == Int(1)
  {
  }

  /** `rb_plan_programs_embedded`: the report's settings. */
  class PlanProgramsReport {
    var url: string
    var source: string
    var shortname: string
    var columns: seq<ReportColumn>
    var filters: seq<ReportFilter>
    var contentmode: int
    var embeddedparams: map<Param, Value>

    /**
     * Builds the report for `data`; `canViewHidden` is whether the viewer
     * holds the capability to view hidden programs.
     */
    constructor (data: map<string, Value>, canViewHidden: bool)
      ensures url == "/totara/plan/record/programs.php"
      ensures source == "dp_program" && shortname == "plan_programs"
      ensures columns == PlanColumns() && filters == PlanFilters()
      ensures contentmode == ContentModeNone
      ensures embeddedparams == PlanParams(data, canViewHidden)
    {
      var userid := Lookup(data, "userid");
      var rolstatus := Lookup(data, "rolstatus");
      var exceptionstatus := Lookup(data, "exceptionstatus");

      url := "/totara/plan/record/programs.php";
      source := "dp_program";
      shortname := "plan_programs";
      columns := PlanColumns();
      filters := PlanFilters();
      contentmode := ContentModeNone;

      var params := map[Category := Str("!0")];
      if IsSet(userid) {
        params := params[UserId := userid];
      }
      if IsSet(rolstatus) {
        params := params[ProgramStatus := Null];
        if SwitchMatches(rolstatus, "active") {
          params := params[ProgramStatus := Str("!" + IntToString(StatusProgramComplete))];
        } else if SwitchMatches(rolstatus, "completed") {
          params := params[ProgramStatus := Int(StatusProgramComplete)];
        }
        params := params[RolStatus := rolstatus];
      }
      if IsSet(exceptionstatus) {
        params := params[ExceptionStatus := exceptionstatus];
      }
      if !canViewHidden {
        params := params[VisibleOnly := Int(1)];
      }
      embeddedparams := params;
    }
  }
}
