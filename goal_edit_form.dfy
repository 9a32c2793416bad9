/**
 * The form for a personal goal: its validation of the owner, the scale
 * and the target date, and the preparation of a stored goal for display
 * in the form.
 *
 * The database checks, the parsing of the date text, the formatting of a
 * date and the clock are passed in.
 */
module GoalEditForm {
  import opened Php

  /** The keys an error can be reported under. */
  datatype Field = User | Scale | TargetDateSelector

  /** The errors, by their language-string identifiers. */
  datatype Error =
    | UserDoesNotExist     // 'userdoesnotexist'
    | InvalidGoalScale     // 'invalidgoalscale'
    | InvalidDatePast      // 'error:invaliddatepast'
    | InvalidDateFormat    // 'error:invaliddateformat'

  /** FORMAT_HTML. */
  const FormatHtml := 1

  /**
   * The target date text is acceptable: it is empty (no target date), or
   * it reads as a date that is not before now.  `parse` gives 0 for text
   * it cannot read.
   */
  predicate TargetDateAcceptable(text: string, parse: string -> int, now: int) {
    EmptyString(text) || (parse(text) != 0 && parse(text) >= now)
  }

  /** A target date of exactly now is accepted; one a second earlier is not. */
  lemma NowIsNotPast(text: string, parse: string -> int, now: int)
    requires !EmptyString(text) && parse(text) != 0
    ensures parse(text) == now ==> TargetDateAcceptable(text, parse, now)
    ensures parse(text) == now - 1 ==> !TargetDateAcceptable(text, parse, now)
  {
  }

  /**
   * `validation`: the owner must exist; a scale, when one is chosen, must
   * exist (scale 0 means "none" and never fails); a target date, when one
   * is given, must be readable and not in the past.
   */
  method Validation(userid: Value, scaleid: Value, targetdateselector: string,
                    userExists: Value -> bool, scaleExists: Value -> bool,
                    parse: string -> int, now: int)
    returns (errors: map<Field, Error>)
    ensures User in errors <==> !userExists(userid)
    ensures User in errors ==> errors[User] == UserDoesNotExist
    ensures Scale in errors <==> !IsEmpty(scaleid) && !scaleExists(scaleid)
    ensures Scale in errors ==> errors[Scale] == InvalidGoalScale
    ensures TargetDateSelector in errors <==> !TargetDateAcceptable(targetdateselector, parse, now)
    ensures TargetDateSelector in errors ==>
      errors[TargetDateSelector] == (if parse(targetdateselector) == 0 then InvalidDateFormat else InvalidDatePast)
  {
    errors := map[];
    if !userExists(userid) {
      errors := errors[User := UserDoesNotExist];
    }
    if !IsEmpty(scaleid) && !scaleExists(scaleid) {
      errors := errors[Scale := InvalidGoalScale];
    }
    if !EmptyString(targetdateselector) {
      var targetdate := targetdateselector;
      if !EmptyString(targetdate) {
        var date := parse(targetdate);
        if date != 0 {
          if date < now {
            errors := errors[TargetDateSelector := InvalidDatePast];
          }
        } else {
          errors := errors[TargetDateSelector := InvalidDateFormat];
        }
      }
    }
  }

  /** A stored goal on its way into the form. */
  class GoalData {
    var targetdate: Value
    var targetdateselector: Option<string>
    var description: Value
    var descriptionformat: Value

    constructor (targetdate0: Value, description0: Value)
      ensures targetdate == targetdate0 && description == description0
      ensures targetdateselector.None? && descriptionformat == Null
    {
      targetdate := targetdate0;
      targetdateselector := None;
      description := description0;
      descriptionformat := Null;
    }

    /**
     * `set_data`: a goal with a target date gets the date's text for the
     * date selector, and one with a description gets the HTML format; the
     * rest is left as it was.  `userdate` formats a date.
     */
    method SetData(userdate: Value -> string)
      modifies this
      ensures targetdate == old(targetdate) && description == old(description)
      ensures !IsEmpty(targetdate) ==> targetdateselector == Some(userdate(targetdate))
      ensures IsEmpty(targetdate) ==> targetdateselector == old(targetdateselector)
      ensures !IsEmpty(description) ==> descriptionformat == Int(FormatHtml)
      ensures IsEmpty(description) ==> descriptionformat == old(descriptionformat)
    {
      if !IsEmpty(targetdate) {
        targetdateselector := Some(userdate(targetdate));
      }
      if !IsEmpty(description) {
        descriptionformat := Int(FormatHtml);
      }
    }
  }
}
