/**
 * The embedded "tasks" report: the messages named `totara_task`, optionally
 * restricted to one user.
 */
module TasksEmbedded {
  import opened Php
  import opened EmbeddedReport

  /** The restricting parameters this report may set. */
  datatype Param = Name | UserId | RoleId

  function TaskColumns(): (cs: seq<ReportColumn>)
    ensures |cs| == 4
  {
    [ ReportColumn("message_values", "msgtype"),
      ReportColumn("user", "namelink"),
      ReportColumn("message_values", "statement"),
      ReportColumn("message_values", "sent") ]
  }

  function TaskFilters(): (fs: seq<ReportFilter>)
    ensures |fs| == 4
  {
    [ ReportFilter("user", "fullname", true),
      ReportFilter("message_values", "category", false),
      ReportFilter("message_values", "statement", true),
      ReportFilter("message_values", "sent", true) ]
  }
  /** The report's columns are distinct options, and so are its filters. */
  lemma TaskOptionsDistinct()
    ensures DistinctColumns(TaskColumns())
    ensures DistinctFilters(TaskFilters())
  {
  }


  /**
   * The parameters the constructor builds: only task messages, and only
   * the given user's when a user is given.  The role restriction reads a
   * variable the constructor never assigns, so it is never added.
   */
  function TaskParams(data: map<string, Value>): map<Param, Value> {
    var userid := Lookup(data, "userid");
    var withName := map[Name := Str("totara_task")];
    if IsSet(userid) then withName[UserId := userid] else withName
  }

  /** Only task messages are shown, whatever the data. */
  lemma OnlyTasks(data: map<string, Value>)
    ensures Name in TaskParams(data) && TaskParams(data)[Name] == Str("totara_task")
  {
  }

  /** The user restriction is added exactly when a non-null user is given, and is that user. */
  lemma UserRestriction(data: map<string, Value>)
    ensures UserId in TaskParams(data) <==> "userid" in data && data["userid"] != Null
    ensures UserId in TaskParams(data) ==> TaskParams(data)[UserId] == data["userid"]
  {
  }

  /** There is never a role restriction: the parameters are the name and at most the user. */
  lemma NeverRoleRestricted(data: map<string, Value>)
    ensures RoleId !in TaskParams(data)
    ensures TaskParams(data).Keys <= {Name, UserId}
  {
  }

  /** `rb_tasks_embedded`: the report's settings. */
  class TasksReport {
    var url: string
    var source: string
    var shortname: string
    var columns: seq<ReportColumn>
    var filters: seq<ReportFilter>
    var contentmode: int
    var embeddedparams: map<Param, Value>

    constructor (data: map<string, Value>)
      ensures url == "/totara/message/tasks.php"
      ensures source == "totaramessages" && shortname == "tasks"
      ensures columns == TaskColumns() && filters == TaskFilters()
      ensures contentmode == ContentModeNone
      ensures embeddedparams == TaskParams(data)
    {
      var userid := Lookup(data, "userid");

      url := "/totara/message/tasks.php";
      source := "totaramessages";
      shortname := "tasks";
      columns := TaskColumns();
      filters := TaskFilters();
      contentmode := ContentModeNone;

      var params := map[Name := Str("totara_task")];
      if IsSet(userid) {
        params := params[UserId := userid];
      }
      // The role id is a local the constructor never assigns, so it is null here.
      var roleid := Null;
      if IsSet(roleid) {
        params := params[RoleId := roleid];
      }
      embeddedparams := params;
    }
  }
}
