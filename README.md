# Totara LMS decision routines, modelled in Dafny

This project models eight small decision and transformation routines of the
Totara learning management system (PHP, 2012–2014), and proves what they
promise. Page plumbing, forms, renderers and the database are outside the
model. Database lookups, capability checks, language strings and the clock
become parameters.

- `php.dfy` (`Php`) holds the part of PHP the routines rely on, in its
  PHP 5.4–7 semantics:
  - values and array keys;
  - `isset` and `empty`, where `empty("0")` holds;
  - `(string)` of an integer and integer-form numeric strings;
  - the loose `==` a `switch` makes, where an integer 0 equals every word;
  - `explode`, `implode` and `array_diff`.
- `cohort_date_rule.dfy` (`CohortDateRule`) covers audience rules on date
  fields. There are six operator codes, the comparison each builds from a
  value and `now`, and the five SQL snippet shapes that wrap the comparison.
- `reportbuilder_upgrade.dfy` (`ReportBuilderUpgrade`) covers the report
  builder's upgrade:
  - the version-gated chain of twelve steps;
  - the saved-search "unwrap `[0]`" rewrite;
  - the completion-status saved-search conversion;
  - the export-options bit-OR;
  - the settings the chain writes.
  
  A `ReportBuilderSite` object holds the saved-search rows, the settings
  and the recorded savepoints. The upgrade methods update them in place.
- `completionimport_source.dfy` (`CompletionImportSource`) is the report
  source over imported course completions:
  - its join, column, filter, parameter and default tables, and their
    mutual consistency;
  - the constructor that installs them;
  - the display of a row's `;`-separated import error codes.
- `course_edit.dfy` (`CourseEdit`) covers the course settings page:
  - where a cancelled edit returns to;
  - the reconciliation of the course's enrolled and visible audiences with
    the submitted lists. A `CourseAudiences` object holds the association
    table, which the reconciliation updates in place.
- `embedded_report.dfy`, `plan_programs_embedded.dfy` and
  `tasks_embedded.dfy` model the two embedded reports whose constructors
  build their restricting parameters from the data they are given.
- `forgot_password_form.dfy` and `goal_edit_form.dfy` model the
  `validation` of the forgotten-password form and of the personal goal
  form, the goal form's `set_data`, and `captcha_enabled`.

Constants whose definitions lie outside the modelled files take these
values:

| constant | value |
|---|---|
| POSITION_TYPE_PRIMARY | 1 |
| STATUS_PROGRAM_COMPLETE | 1 |
| COMPLETION_STATUS_NOTYETSTARTED | 10 |
| COMPLETION_STATUS_INPROGRESS | 25 |
| COMPLETION_STATUS_COMPLETE | 50 |
| COMPLETION_STATUS_COMPLETEVIARPL | 75 |
| REPORT_BUILDER_EXPORT_PDF_PORTRAIT | 16 |
| REPORT_BUILDER_EXPORT_PDF_LANDSCAPE | 32 |
| REPORT_BUILDER_CONTENT_MODE_NONE | 0 |
| FORMAT_HTML | 1 |

Some behaviours follow from PHP's loose comparison and show up in the
lemmas:

- A cancelled course edit without a `returnto` parameter leaves the
  variable at its integer default 0. A `switch` finds 0 equal to
  `'category'`, so the edit returns to the category listing
  (`CourseEdit.CancelWithoutReturnto`).
- A `rolstatus` of integer 0 likewise counts as `'active'`
  (`PlanProgramsEmbedded.ZeroRolStatusIsActive`).
- An audience list of `"0"` is `empty()` and asks for no audience at all.

## Model

| member | source | states |
|---|---|---|
| Php.IntToStringRoundTrip | totara/cohort/rules/sqlhandlers/date.php:72-87 | the decimal text an integer is inlined as reads back as that integer |
| Php.SwitchOnStringIsEquality | course/edit.php:166-186 | a `switch` on a string against a word case is plain string equality |
| Php.ZeroMatchesEveryWordLabel | course/edit.php:166-167 | a `switch` on the integer 0 matches any word case |
| Php.ExplodeShape | totara/completionimport/rb_sources/rb_source_completionimport_course.php:416 | `explode` gives one more piece than there are separators, and no piece holds the separator |
| Php.ImplodeExplode | totara/completionimport/rb_sources/rb_source_completionimport_course.php:416 | joining the pieces of `explode` with the separator gives back the string |
| Php.ExplodeImplode | totara/completionimport/rb_sources/rb_source_completionimport_course.php:416 | splitting a join of separator-free pieces gives back the pieces |
| Php.ArrayDiff | course/edit.php:248 | `array_diff` keeps exactly the entries of the first list absent from the second, and never more entries than the first list has |
| Php.ArrayDiffSingle | course/edit.php:248 | a one-entry list keeps its entry exactly when the entry is not in the second list |
| Php.ArrayDiffAppend | course/edit.php:248 | the difference of a concatenation is the concatenation of the differences, so the kept entries stay in their original order |
| CohortDateRule.OperatorFromCode | totara/cohort/rules/sqlhandlers/date.php:31-36 | codes 10 to 60 name the six operators; any other code names none |
| CohortDateRule.CodeRoundTrip | totara/cohort/rules/sqlhandlers/date.php:31-36 | every operator is found again from its code |
| CohortDateRule.DisplayKeysShared | totara/cohort/rules/sqlhandlers/date.php:38-45 | the display table covers the six codes with four keys; 50 shares 40's key and 60 shares 30's |
| CohortDateRule.ComparisonMeaning | totara/cohort/rules/sqlhandlers/date.php:70-89 | each operator's comparison selects exactly the timestamps it means: before/after a date, at least or at most N days before or after now |
| CohortDateRule.FixedDateIgnoresNow | totara/cohort/rules/sqlhandlers/date.php:71-76 | the fixed-date operators give `<= date` and `>= date` whatever the clock says |
| CohortDateRule.BetweenBoundsOrdered | totara/cohort/rules/sqlhandlers/date.php:80-85 | for a non-negative day count both BETWEEN ranges have lower ≤ upper and contain now |
| CohortDateRule.OperatorComparisons | totara/cohort/rules/sqlhandlers/date.php:70-89 | the exact comparison text of each of the six codes, with `date*86400` seconds around now |
| CohortDateRule.ComparisonTextRoundTrip | totara/cohort/rules/sqlhandlers/date.php:70-89 | every value of a comparison is inlined in its text: the comparison reads back from it |
| CohortDateRule.ComparisonTextInjective | totara/cohort/rules/sqlhandlers/date.php:70-89 | different comparisons never give the same text |
| CohortDateRule.ConstructSqlSnippet | totara/cohort/rules/sqlhandlers/date.php:105-203 | every snippet shape has an empty parameter list and contains the comparison |
| CohortDateRule.GetSqlSnippet | totara/cohort/rules/sqlhandlers/date.php:67-91 | an unknown operator code (the `switch` has no default, so the comparison is left undefined) is an error carrying the snippet built around an empty comparison; a known one wraps that operator's comparison in the handler's snippet, with no parameters |
| CohortDateRule.UserFieldSnippet | totara/cohort/rules/sqlhandlers/date.php:105-111 | the user-column snippet is exactly `u.` + field + space + comparison, with no parameters |
| CohortDateRule.SnippetDeterminesComparison | totara/cohort/rules/sqlhandlers/date.php:105-203 | two rules give the same snippet for a handler only with the same comparison |
| CohortDateRule.AssignmentSnippetsUsePrimaryPosition | totara/cohort/rules/sqlhandlers/date.php:141-203 | the position-start, position and organisation snippets restrict to the primary position type |
| CohortDateRule.CustomFieldSnippetsFilterData | totara/cohort/rules/sqlhandlers/date.php:165-203 | the position and organisation custom-field snippets read only non-empty, non-null data of the given field id |
| ReportBuilderUpgrade.Thresholds | totara/reportbuilder/db/upgrade.php:37-282 | the twelve step versions, in the order the chain tries them |
| ReportBuilderUpgrade.StepsAboveMembership | totara/reportbuilder/db/upgrade.php:37-282 | a step runs exactly when the old version is below its version |
| ReportBuilderUpgrade.StepsAboveIsSuffix | totara/reportbuilder/db/upgrade.php:37-282 | on increasing versions the steps that run are a tail of the chain |
| ReportBuilderUpgrade.StepsRunInOrder | totara/reportbuilder/db/upgrade.php:37-282 | the steps run come in strictly increasing version order and are exactly those above the old version |
| ReportBuilderUpgrade.StepsAboveMonotone | totara/reportbuilder/db/upgrade.php:37-282 | on increasing versions a newer old version runs a tail of what an older one runs |
| ReportBuilderUpgrade.StepsRunMonotone | totara/reportbuilder/db/upgrade.php:37-282 | upgrading from a newer version runs a tail of the steps an older one runs |
| ReportBuilderUpgrade.StringFilterIsTruncated | totara/reportbuilder/db/upgrade.php:87 | as written, a string filter value of two or more bytes is cut down to its first byte |
| ReportBuilderUpgrade.UnwrapFilter | totara/reportbuilder/db/upgrade.php:84-88 | an array whose only entry is a set value at 0 becomes that value; every other value is kept |
| ReportBuilderUpgrade.UnwrapAgreesExceptOnStrings | totara/reportbuilder/db/upgrade.php:87 | the intended rewrite agrees with the written one on every non-string value |
| ReportBuilderUpgrade.NormaliseSearch | totara/reportbuilder/db/upgrade.php:83-88 | a saved search keeps its keys; wrapped filters are unwrapped and all others kept |
| ReportBuilderUpgrade.NormaliseSearchFixesUnwrapped | totara/reportbuilder/db/upgrade.php:83-88 | a search without wrapped filters is left unchanged |
| ReportBuilderUpgrade.StatusChoiceOf | totara/reportbuilder/db/upgrade.php:124-143 | (1,'0') or (2,'1') mean "not completed", (1,'1') or (2,'0') mean "completed", and any other pair is not understood |
| ReportBuilderUpgrade.ConvertStatusSearch | totara/reportbuilder/db/upgrade.php:119-148 | a search is converted iff the status filter has an int operator and a string value it understands; the converted search keeps its keys and other filters, sets operator 1 and the status map, and keeps other options |
| ReportBuilderUpgrade.ConvertStatusSearchOnce | totara/reportbuilder/db/upgrade.php:119-121 | a converted search is not converted again |
| ReportBuilderUpgrade.StatusMapKeepsMeaning | totara/reportbuilder/db/upgrade.php:124-139 | the new status map selects exactly the completion statuses the old operator/value pair selected |
| ReportBuilderUpgrade.Cap | totara/reportbuilder/db/upgrade.php:226-228 | a number outside PHP's 64-bit integer range is capped at the nearer end, as an overflowing numeric string converts; numbers inside the range are kept |
| ReportBuilderUpgrade.NewExportOptions | totara/reportbuilder/db/upgrade.php:226-228 | the new options keep every bit that was set (null read as 0), set both PDF bits, and set nothing else |
| ReportBuilderUpgrade.WordRoundTrip | totara/reportbuilder/db/upgrade.php:228-229 | a 64-bit word read as a signed integer and converted back is the same word |
| ReportBuilderUpgrade.SignOfWord | totara/reportbuilder/db/upgrade.php:228-229 | a word stands for a negative integer exactly when its top bit is set |
| ReportBuilderUpgrade.StoredOptionsReadBack | totara/reportbuilder/db/upgrade.php:226-229 | the stored decimal text reads back as the signed result of the bitwise or, which is negative exactly when the current options were |
| ReportBuilderUpgrade.AllOptionsKept | totara/reportbuilder/db/upgrade.php:226-229 | a setting of "-1" (every option on) is stored again as "-1" |
| ReportBuilderUpgrade.PdfAlreadyOn | totara/reportbuilder/db/upgrade.php:228 | adding the PDF bits to options that have them changes nothing |
| ReportBuilderUpgrade.ExportOptionsIdempotent | totara/reportbuilder/db/upgrade.php:226-229 | running the export-options rewrite again on what it stored stores the same value |
| ReportBuilderUpgrade.UnwrapAll | totara/reportbuilder/db/upgrade.php:78-91 | every saved-search row is unwrapped in place, in the same order |
| ReportBuilderUpgrade.ConvertAll | totara/reportbuilder/db/upgrade.php:110-151 | every saved-search row is converted in place, in the same order |
| ReportBuilderUpgrade.StepsKeepRows | totara/reportbuilder/db/upgrade.php:78-151 | both rewrites keep each row's id and report source; rows of other sources are not converted |
| ReportBuilderUpgrade.ReportBuilderSite.Savepoint | totara/reportbuilder/db/upgrade.php:57 | recording a savepoint appends its version and changes no data |
| ReportBuilderUpgrade.ReportBuilderSite.SetConfig | totara/reportbuilder/db/upgrade.php:71 | a setting is written and nothing else changes |
| ReportBuilderUpgrade.ReportBuilderSite.UnwrapSavedSearches | totara/reportbuilder/db/upgrade.php:75-94 | the saved-search table becomes its unwrapped form; settings and savepoints are unchanged |
| ReportBuilderUpgrade.ReportBuilderSite.ConvertStatusSearches | totara/reportbuilder/db/upgrade.php:96-153 | the saved-search table becomes its converted form; settings and savepoints are unchanged |
| ReportBuilderUpgrade.ReportBuilderSite.AddPdfExportOptions | totara/reportbuilder/db/upgrade.php:225-229 | the export-options setting becomes the decimal text of the signed 64-bit result of or-ing both PDF bits into its current value: false (when absent) and null read as 0, a numeric string as its integer capped at the 64-bit range |
| ReportBuilderUpgrade.ReportBuilderSite.Upgrade2012 | totara/reportbuilder/db/upgrade.php:37-153 | the 2012 steps record their savepoints in order and apply the financial-year, unwrap and status rewrites when due |
| ReportBuilderUpgrade.ReportBuilderSite.UpgradeEarly2013 | totara/reportbuilder/db/upgrade.php:155-213 | the early-2013 steps record their savepoints and write the export-to-file-system setting when due |
| ReportBuilderUpgrade.ReportBuilderSite.UpgradeLate2013 | totara/reportbuilder/db/upgrade.php:215-280 | the late-2013 steps record their savepoints and add the PDF export options when due |
| ReportBuilderUpgrade.ReportBuilderSite.Upgrade2014 | totara/reportbuilder/db/upgrade.php:282-294 | the 2014 step records its savepoint when due and changes no data |
| ReportBuilderUpgrade.ReportBuilderSite.Upgrade | totara/reportbuilder/db/upgrade.php:33-296 | the upgrade returns true, records exactly the steps above the old version in order, and leaves the saved searches and settings as the due rewrites make them |
| CompletionImportSource.DefaultColumnsAreOffered | totara/completionimport/rb_sources/rb_source_completionimport_course.php:91-360 | every default column is one of the column options |
| CompletionImportSource.DefaultFiltersAreOffered | totara/completionimport/rb_sources/rb_source_completionimport_course.php:203-411 | every default filter is one of the filter options |
| CompletionImportSource.FiltersHaveColumns | totara/completionimport/rb_sources/rb_source_completionimport_course.php:91-288 | every filter option filters something a column option shows |
| CompletionImportSource.OptionsAreUnique | totara/completionimport/rb_sources/rb_source_completionimport_course.php:91-288 | no two column options, and no two filter options, name the same group and field |
| CompletionImportSource.ColumnJoinsAreDeclared | totara/completionimport/rb_sources/rb_source_completionimport_course.php:68-197 | every join a column needs is declared, and the importing-user columns need it |
| CompletionImportSource.NonEmptyCodes | totara/completionimport/rb_sources/rb_source_completionimport_course.php:417-420 | the kept codes are exactly the pieces `empty()` does not reject, never more of them |
| CompletionImportSource.ErrorCodesShape | totara/completionimport/rb_sources/rb_source_completionimport_course.php:416-420 | no code is empty or holds `;`, every non-empty piece is a code, and there are at most one more codes than separators |
| CompletionImportSource.NoTextNoErrors | totara/completionimport/rb_sources/rb_source_completionimport_course.php:416-420 | an empty message, or one of separators only, shows no error |
| CompletionImportSource.ErrorCodesRoundTrip | totara/completionimport/rb_sources/rb_source_completionimport_course.php:416-420 | codes joined with `;` are read back as the same codes in the same order |
| CompletionImportSource.DisplayImportErrorMsg | totara/completionimport/rb_sources/rb_source_completionimport_course.php:414-424 | one message per error code, in the order of the codes |
| CompletionImportSource.NonEmptyCodesAppend | totara/completionimport/rb_sources/rb_source_completionimport_course.php:417-421 | the codes of two runs of pieces are the codes of each, one after the other |
| CompletionImportSource.CompletionImportCourseSource.constructor | totara/completionimport/rb_sources/rb_source_completionimport_course.php:42-54 | installs the tables, with empty default filters and required columns, and every default column offered |
| CourseEdit.CancelUrl | course/edit.php:165-187 | the fixed targets carry the category id; returning to the course happens only for an existing course |
| CourseEdit.CancelUrlOfText | course/edit.php:166-186 | each return word leads to its own page; any other text leads to the course, or to the course listing without a course |
| CourseEdit.CancelWithoutReturnto | course/edit.php:43-169 | without a `returnto` parameter (integer 0) the cancelled edit goes to the category listing |
| CourseEdit.Targets | course/edit.php:246 | a missing or empty field asks for no audience; otherwise the pieces join back to the field and none of them contains a comma |
| CourseEdit.DeleteCallsUseStoredIds | course/edit.php:250-252 | each deletion names a cohort to delete and the association id stored for it |
| CourseEdit.AddCallsAreListed | course/edit.php:257-259 | each addition names a cohort to add, in order |
| CourseEdit.ReconcileSets | course/edit.php:248-260 | delete = current minus submitted, add = submitted minus current, a cohort in both is in neither, and applying both leaves the submitted set |
| CourseEdit.CourseAudiences.DeleteAssociation | course/edit.php:251 | the cohort leaves the table of its kind; the call is recorded |
| CourseEdit.CourseAudiences.AddAssociation | course/edit.php:258 | the cohort joins the table of its kind under a fresh id; the call is recorded |
| CourseEdit.CourseAudiences.DeleteAll | course/edit.php:248-253 | the listed cohorts leave the table, each deletion recorded with its stored id |
| CourseEdit.CourseAudiences.AddAll | course/edit.php:255-260 | the listed cohorts join the table; entries that were there and are not re-added keep their ids |
| CourseEdit.ReconciledTable | course/edit.php:248-260 | deleting the cohorts not submitted and then adding the submitted ones not present leaves exactly the submitted cohorts, and those already present keep their association ids |
| CourseEdit.CourseAudiences.Reconcile | course/edit.php:244-260 | afterwards the table holds exactly the submitted cohorts, kept cohorts keep their association ids, the calls are the deletions then the additions, and one association id is handed out per addition |
| CourseEdit.CourseAudiences.UpdateCourseCohorts | course/edit.php:242-283 | nothing changes without the cohort-manage capability; with it, the enrolled audiences are reconciled, and the visible ones too only with audience visibility on and the visibility capability; the calls are the enrolled reconciliation's followed by the visible one's when it runs, and the next association id advances by one per addition |
| CourseEdit.EmptyRequestDeletesAll | course/edit.php:246-253 | an empty audience field deletes every current association, each with its stored id, and adds nothing |
| EmbeddedReport.Lookup | totara/reportbuilder/embedded/rb_plan_programs_embedded.php:35-37 | a missing key reads as null, a present one as its value |
| PlanProgramsEmbedded.PlanColumns | totara/reportbuilder/embedded/rb_plan_programs_embedded.php:43-74 | the report has six columns |
| PlanProgramsEmbedded.PlanFilters | totara/reportbuilder/embedded/rb_plan_programs_embedded.php:76-92 | the report has three filters |
| PlanProgramsEmbedded.ProgramStatusFor | totara/reportbuilder/embedded/rb_plan_programs_embedded.php:106-115 | the program status is null, `'!'` + STATUS_PROGRAM_COMPLETE, or STATUS_PROGRAM_COMPLETE |
| PlanProgramsEmbedded.PlanOptionsDistinct | totara/reportbuilder/embedded/rb_plan_programs_embedded.php:43-92 | no two columns show the same option and no two filters filter on the same option |
| PlanProgramsEmbedded.ParamNamesDistinct | totara/reportbuilder/embedded/rb_plan_programs_embedded.php:98-127 | the parameter keys are distinct |
| PlanProgramsEmbedded.CategoryAlwaysExcluded | totara/reportbuilder/embedded/rb_plan_programs_embedded.php:98-100 | `category` is always `'!0'` |
| PlanProgramsEmbedded.OptionalParamsPassedOn | totara/reportbuilder/embedded/rb_plan_programs_embedded.php:102-121 | `userid` and `exceptionstatus` are set exactly when given non-null, to the given value |
| PlanProgramsEmbedded.RolStatusSetsProgramStatus | totara/reportbuilder/embedded/rb_plan_programs_embedded.php:106-117 | a given status is echoed; 'active' gives `'!1'`, 'completed' gives 1, any other text null, each in both directions |
| PlanProgramsEmbedded.NoRolStatusNoProgramStatus | totara/reportbuilder/embedded/rb_plan_programs_embedded.php:106 | without a status neither `programstatus` nor `rolstatus` is set |
| PlanProgramsEmbedded.ZeroRolStatusIsActive | totara/reportbuilder/embedded/rb_plan_programs_embedded.php:108-110 | a status of integer 0 counts as 'active' |
| PlanProgramsEmbedded.VisibleOnlyWithoutCapability | totara/reportbuilder/embedded/rb_plan_programs_embedded.php:123-127 | `visible = 1` is set exactly when the viewer lacks the hidden-programs capability |
| PlanProgramsEmbedded.PlanProgramsReport.constructor | totara/reportbuilder/embedded/rb_plan_programs_embedded.php:33-130 | sets url, source, short name, columns, filters, content mode none and the parameters above |
| TasksEmbedded.TaskColumns | totara/reportbuilder/embedded/rb_tasks_embedded.php:38-59 | the report has four columns |
| TasksEmbedded.TaskFilters | totara/reportbuilder/embedded/rb_tasks_embedded.php:61-82 | the report has four filters |
| TasksEmbedded.TaskOptionsDistinct | totara/reportbuilder/embedded/rb_tasks_embedded.php:38-82 | no two columns show the same option and no two filters filter on the same option |
| TasksEmbedded.OnlyTasks | totara/reportbuilder/embedded/rb_tasks_embedded.php:88-90 | `name` is always `'totara_task'` |
| TasksEmbedded.UserRestriction | totara/reportbuilder/embedded/rb_tasks_embedded.php:92-94 | `userid` is set exactly when given non-null, to the given value |
| TasksEmbedded.NeverRoleRestricted | totara/reportbuilder/embedded/rb_tasks_embedded.php:96-98 | `roleid` is never set; the parameters are at most `name` and `userid` |
| TasksEmbedded.TasksReport.constructor | totara/reportbuilder/embedded/rb_tasks_embedded.php:31-101 | sets source `totaramessages`, content mode none, the columns, the filters and the parameters above |
| ForgotPasswordForm.ExactlyOneSearchField | login/forgot_password_form.php:65-67 | both or neither of user name and email: both fields get `usernameoremail` |
| ForgotPasswordForm.EmailSearchErrors | login/forgot_password_form.php:69-85 | an email search only reports on the email field; a malformed address gets `invalidemail`, a shared one `forgottenduplicate` |
| ForgotPasswordForm.UnconfirmedReportedOnEmail | login/forgot_password_form.php:77-91 | an unconfirmed account gets `confirmednot` on the email field, whichever field found it |
| ForgotPasswordForm.ProtectedUsernamesHideAccounts | login/forgot_password_form.php:82-95 | with user names protected a missing account gives the same errors as a confirmed one; without protection it is reported on the searched field |
| ForgotPasswordForm.CaptchaErrorWhenEnabledOnly | login/forgot_password_form.php:98-125 | the captcha field has an error iff the captcha is enabled (both keys and the form flag set) and the challenge is missing or rejected; a missing one gets `missingrecaptchachallengefield` |
| ForgotPasswordForm.Validation | login/forgot_password_form.php:60-116 | the errors are the search errors plus the captcha errors, and the captcha error never hides a search error |
| GoalEditForm.NowIsNotPast | totara/hierarchy/prefix/goal/item/edit_form.php:159-162 | a target date equal to now is accepted; one a second earlier is not |
| GoalEditForm.Validation | totara/hierarchy/prefix/goal/item/edit_form.php:139-171 | `user` error iff the user does not exist; `scale` error iff a non-empty scale does not exist; date error iff a given date is unreadable or before now, with the matching key |
| GoalEditForm.GoalData.SetData | totara/hierarchy/prefix/goal/item/edit_form.php:117-137 | the date selector text is set only for a non-empty target date, the HTML format only for a non-empty description; nothing else changes |

## Left out

- I/O is outside the model. The SQL of `sql_cast_char2int`, `sql_fullname`
  and `sql_like` becomes a parameter. So do database reads and writes,
  `time()`, `get_string`, `userdate`, `validate_email`, the reCAPTCHA
  service and capability checks. `html_writer` output is not modelled.
- CohortDateRule.GetSqlSnippet: uses one `now`, where the source calls
  `time()` twice within a BETWEEN and the two calls can differ by a second.
- CohortDateRule.GetSqlSnippet: takes the operator as an integer. A numeric
  string operator, which the `switch` would also accept, is not modelled.
- Numeric strings are modelled only in integer form (sign and digits).
  Leading whitespace, fractions and exponents are not.
- ReportBuilderUpgrade: the schema changes, the column and filter renames
  (steps 2012071300, 2012071900 and 2013121000), `serialize`/`unserialize`
  and recordset iteration are database plumbing. Those steps only record
  their savepoints.
- ReportBuilderUpgrade.ConvertStatusSearches: reads every saved search of
  `course_completion` reports. The source's extra LIKE pre-filter on the
  serialized text is subsumed by the key check.
- ReportBuilderUpgrade.IntValue: reads a string setting of a form other
  than sign and digits (leading blanks, a fraction, an exponent, trailing
  text) as 0. PHP reads such a string's leading number.
- CohortDateRule.ComparisonFor: multiplies the day count by 86400 on
  unbounded integers. In PHP a product beyond the 64-bit range becomes a
  float, and its text in the SQL is then in exponent form.
- ReportBuilderUpgrade.NormaliseSearch, ReportBuilderUpgrade.UnwrapAll,
  ReportBuilderSite.UnwrapSavedSearches and ReportBuilderSite.Upgrade use
  the corrected UnwrapFilter (see Findings). A non-empty string filter is
  kept, where the source as written cuts it to its first byte.
- ReportBuilderUpgrade: settings other than `financialyear`,
  `exporttofilesystem` and `exportoptions` are not part of the model.
- The `sourcetitle`, the headings' language text and `rb_filter_timecreated`
  (a database query for the time-created select filter) are not modelled.
- The `define_*` table builders: their tables are modelled as sequence
  values. The element-by-element appends that build them are not.
- CourseEdit.CourseAudiences.DeleteAssociation: removes the association by
  cohort. The real call deletes by association id, and its body is not
  part of this model.
- CourseEdit.CourseAudiences.AddAssociation: gives each addition a fresh
  association id. The real call's handling of a cohort listed twice is not
  part of this model.
- The edit page's other work is not modelled: course creation and update,
  tags, custom fields, enrolment of the creator, page setup and the cache
  purge.
- `parent::__construct()` of the embedded reports and `parent::validation`
  of the forgotten-password form are not part of this model. The latter is
  taken to return no errors.
- ForgotPasswordForm.CaptchaErrors: the service's verdict is "accepted" or
  a reason text. Other non-true results of `verify` are not modelled.
- GoalEditForm.Validation: the date parser gives 0 for unreadable text, and
  a date of exactly 0 counts as unreadable, as PHP's truth test makes it.
- GoalEditForm.GoalData.SetData: the editor file preparation for the
  description is not modelled.

## Findings

| source | as written | input that shows it | evidently intended | confidence | as-written member | corrected member |
|---|---|---|---|---|---|---|
| totara/reportbuilder/db/upgrade.php:87 | `isset($filter[0]) && count($filter) == 1` also holds for a non-empty string, since `isset` on a string offset tests its first byte and `count` of a scalar is 1, so the string becomes `$filter[0]`, its first byte | a saved-search filter stored as the string `"ab"` is rewritten to `"a"` | only an array whose one entry is at key 0 is unwrapped; every other value is kept | low, not executed: saved filters may always be arrays in practice | ReportBuilderUpgrade.StringFilterIsTruncated | ReportBuilderUpgrade.UnwrapFilter |
