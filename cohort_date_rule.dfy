/**
 * Audience (cohort) rules on date fields: the six date operators, the
 * comparison each one builds, and the five SQL snippet shapes that wrap the
 * comparison for the kind of field the rule looks at.
 *
 * The wall clock is the parameter `now`, and the database layer's
 * char-to-integer cast is the parameter `cast`, which maps a column
 * expression to the SQL text that casts it.
 */
module CohortDateRule {
  import opened Php

  /** Seconds in a day: relative operators count their value in days. */
  const SecondsPerDay: int := 24 * 60 * 60

  /** The position-assignment type of a user's primary position. */
  const PositionTypePrimary: int := 1

  /** The six date operators. */
  datatype DateOperator =
    | BeforeFixedDate
    | AfterFixedDate
    | BeforePastDuration
    | WithinPastDuration
    | WithinFutureDuration
    | AfterFutureDuration
  {
    /** The code under which a rule stores the operator. */
    function Code(): int {
      match this
      case BeforeFixedDate => 10
      case AfterFixedDate => 20
      case BeforePastDuration => 30
      case WithinPastDuration => 40
      case WithinFutureDuration => 50
      case AfterFutureDuration => 60
    }
  }

  /** The operator stored under `code`, if any. */
  function OperatorFromCode(code: int): (r: Option<DateOperator>)
    ensures r.Some? ==> r.value.Code() == code
    ensures r.None? ==> code !in {10, 20, 30, 40, 50, 60}
  {
    match code
    case 10 => Some(BeforeFixedDate)
    case 20 => Some(AfterFixedDate)
    case 30 => Some(BeforePastDuration)
    case 40 => Some(WithinPastDuration)
    case 50 => Some(WithinFutureDuration)
    case 60 => Some(AfterFutureDuration)
    case _ => None
  }

  /** Each operator is found again from its code. */
  lemma CodeRoundTrip(op: DateOperator)
    ensures OperatorFromCode(op.Code()) == Some(op)
  {
  }

  /** The language-string key each operator code is displayed with. */
  const DisplayKeys: map<int, string> := map[
    10 := "before",
    20 := "after",
    30 := "beforepastduration",
    40 := "inpastduration",
    50 := "inpastduration",
    60 := "beforepastduration"
  ]

  /**
   * The display table covers exactly the six operators but uses only four
   * keys: within-future shares the key of within-past and after-future the
   * key of before-past.
   */
  lemma DisplayKeysShared()
    ensures DisplayKeys.Keys == set op: DateOperator :: op.Code()
    ensures DisplayKeys[WithinFutureDuration.Code()] == DisplayKeys[WithinPastDuration.Code()] == "inpastduration"
    ensures DisplayKeys[AfterFutureDuration.Code()] == DisplayKeys[BeforePastDuration.Code()] == "beforepastduration"
    ensures |DisplayKeys.Values| == 4
  {
    var codes := set op: DateOperator :: op.Code();
    assert 10 == BeforeFixedDate.Code() && 20 == AfterFixedDate.Code() && 30 == BeforePastDuration.Code();
    assert 40 == WithinPastDuration.Code() && 50 == WithinFutureDuration.Code() && 60 == AfterFutureDuration.Code();
    assert codes == {10, 20, 30, 40, 50, 60};
    var keys := DisplayKeys.Values;
    assert DisplayKeys[10] == "before" && DisplayKeys[20] == "after";
    assert DisplayKeys[30] == "beforepastduration" && DisplayKeys[40] == "inpastduration";
    assert keys == {"before", "after", "beforepastduration", "inpastduration"};
    assert "before" != "after";
    assert "beforepastduration" != "inpastduration";
  }

  // ---------------------------------------------------------------------
  // Comparisons
  // ---------------------------------------------------------------------

  /** A comparison against a timestamp column, as SQL evaluates it. */
  datatype Comparison = AtMost(bound: int) | AtLeast(bound: int) | Between(low: int, high: int)

  /** Whether the column value `t` passes the comparison (BETWEEN is inclusive). */
  predicate Satisfies(c: Comparison, t: int) {
    match c
    case AtMost(b) => t <= b
    case AtLeast(b) => t >= b
    case Between(lo, hi) => lo <= t <= hi
  }

  /** The comparison an operator builds from the rule's value `date` at time `now`. */
  function ComparisonFor(op: DateOperator, date: int, now: int): Comparison {
    match op
    case BeforeFixedDate => AtMost(date)
    case AfterFixedDate => AtLeast(date)
    case BeforePastDuration => AtMost(now - date * SecondsPerDay)
    case WithinPastDuration => Between(now - date * SecondsPerDay, now)
    case WithinFutureDuration => Between(now, now + date * SecondsPerDay)
    case AfterFutureDuration => AtLeast(now + date * SecondsPerDay)
  }

  /**
   * What each operator means for a timestamp `t`: for the fixed-date
   * operators `date` is a timestamp, for the others a number of days.
   */
  predicate Means(op: DateOperator, date: int, now: int, t: int) {
    match op
    case BeforeFixedDate => t <= date
    case AfterFixedDate => date <= t
    case BeforePastDuration => now - t >= date * SecondsPerDay
    case WithinPastDuration => 0 <= now - t <= date * SecondsPerDay
    case WithinFutureDuration => 0 <= t - now <= date * SecondsPerDay
    case AfterFutureDuration => t - now >= date * SecondsPerDay
  }

  /** The comparison built for an operator selects exactly the timestamps the operator means. */
  lemma ComparisonMeaning(op: DateOperator, date: int, now: int, t: int)
    ensures Satisfies(ComparisonFor(op, date, now), t) <==> Means(op, date, now, t)
  {
  }

  /** The fixed-date operators do not depend on the clock. */
  lemma FixedDateIgnoresNow(date: int, now1: int, now2: int)
    ensures ComparisonFor(BeforeFixedDate, date, now1) == ComparisonFor(BeforeFixedDate, date, now2) == AtMost(date)
    ensures ComparisonFor(AfterFixedDate, date, now1) == ComparisonFor(AfterFixedDate, date, now2) == AtLeast(date)
  {
  }

  /** For a non-negative number of days both BETWEEN ranges are non-empty and contain `now`. */
  lemma BetweenBoundsOrdered(date: int, now: int)
    requires date >= 0
    ensures ComparisonFor(WithinPastDuration, date, now).low <= ComparisonFor(WithinPastDuration, date, now).high == now
    ensures now == ComparisonFor(WithinFutureDuration, date, now).low <= ComparisonFor(WithinFutureDuration, date, now).high
    ensures Satisfies(ComparisonFor(WithinPastDuration, date, now), now)
    ensures Satisfies(ComparisonFor(WithinFutureDuration, date, now), now)
  {
  }

  /** The comparison as the SQL text that follows the column. */
  function ComparisonText(c: Comparison): string {
    match c
    case AtMost(b) => "<= " + IntToString(b)
    case AtLeast(b) => ">= " + IntToString(b)
    case Between(lo, hi) => "BETWEEN " + IntToString(lo) + " AND " + IntToString(hi)
  }

  /** Reads a comparison back from its SQL text. */
  function ParseComparison(s: string): Option<Comparison> {
    if |s| >= 3 && s[..3] == "<= " then
      match ParseInt(s[3..])
      case Some(b) => Some(AtMost(b))
      case None => None
    else if |s| >= 3 && s[..3] == ">= " then
      match ParseInt(s[3..])
      case Some(b) => Some(AtLeast(b))
      case None => None
    else if |s| >= 8 && s[..8] == "BETWEEN " then
      var rest := s[8..];
      var k := IndexOfSpace(rest);
      if k + 5 <= |rest| && rest[k..k + 5] == " AND " then
        match (ParseInt(rest[..k]), ParseInt(rest[k + 5..]))
        case (Some(lo), Some(hi)) => Some(Between(lo, hi))
        case _ => None
      else None
    else None
  }

  /** The index of the first space in `s`, or `|s|` when there is none. */
  function IndexOfSpace(s: string): (k: nat)
    ensures k <= |s|
    ensures forall i :: 0 <= i < k ==> s[i] != ' '
    ensures k < |s| ==> s[k] == ' '
    decreases |s|
  {
    if |s| == 0 then 0 else if s[0] == ' ' then 0 else 1 + IndexOfSpace(s[1..])
  }

  lemma {:induction false} IndexOfSpaceAfterWord(a: string, b: string)
    requires ' ' !in a
    requires |b| >= 1 && b[0] == ' '
    ensures IndexOfSpace(a + b) == |a|
    decreases |a|
  {
    if |a| > 0 {
      assert (a + b)[1..] == a[1..] + b;
      IndexOfSpaceAfterWord(a[1..], b);
    } else {
      assert a + b == b;
    }
  }

  /** The text of an integer holds no space. */
  lemma IntTextHasNoSpace(i: int)
    ensures ' ' !in IntToString(i)
  {
    IntToStringChars(i);
  }

  /** A one-bound comparison is recovered from its text. */
  lemma BoundTextRoundTrip(c: Comparison)
    requires c.AtMost? || c.AtLeast?
    ensures ParseComparison(ComparisonText(c)) == Some(c)
  {
    var s := ComparisonText(c);
    assert s[3..] == IntToString(c.bound);
    IntToStringRoundTrip(c.bound);
  }

  /** A BETWEEN comparison is recovered from its text: its bounds hold no space. */
  lemma BetweenTextRoundTrip(lo: int, hi: int)
    ensures ParseComparison(ComparisonText(Between(lo, hi))) == Some(Between(lo, hi))
  {
    var s := ComparisonText(Between(lo, hi));
    var l, h := IntToString(lo), IntToString(hi);
    assert s[..3] != "<= " && s[..3] != ">= " by {
      assert s[0] == 'B';
    }
    assert s[..8] == "BETWEEN ";
    var rest := s[8..];
    assert rest == l + (" AND " + h);
    IntTextHasNoSpace(lo);
    IndexOfSpaceAfterWord(l, " AND " + h);
    assert rest[..|l|] == l;
    assert rest[|l|..|l| + 5] == " AND ";
    assert rest[|l| + 5..] == h;
    IntToStringRoundTrip(lo);
    IntToStringRoundTrip(hi);
  }

  /** The comparison is recovered from its text: all its values are inlined there. */
  lemma ComparisonTextRoundTrip(c: Comparison)
    ensures ParseComparison(ComparisonText(c)) == Some(c)
  {
    if c.Between? {
      BetweenTextRoundTrip(c.low, c.high);
    } else {
      BoundTextRoundTrip(c);
    }
  }

  /** Different comparisons never produce the same SQL text. */
  lemma ComparisonTextInjective(c1: Comparison, c2: Comparison)
    requires ComparisonText(c1) == ComparisonText(c2)
    ensures c1 == c2
  {
    ComparisonTextRoundTrip(c1);
    ComparisonTextRoundTrip(c2);
  }

  // ---------------------------------------------------------------------
  // Snippets
  // ---------------------------------------------------------------------

  /** The result of a handler: SQL text and the values bound to its placeholders. */
  datatype SqlSnippet = SqlSnippet(sql: string, params: seq<Value>)

  /**
   * The field a date rule looks at, one variant per handler class: a column
   * of the user table, a user custom field, the start of the primary
   * position, a position custom field or an organisation custom field.  A
   * custom field is named by its id, as text.  The primary-position handler
   * takes no field.
   */
  datatype DateHandler =
    | UserField(field: string)
    | UserCustomField(field: string)
    | PosStarted
    | PosCustomField(field: string)
    | OrgCustomField(field: string)

  /** The text of a list of pieces written one after the other. */
  function Concat(pieces: seq<string>): string
    decreases |pieces|
  {
    if |pieces| == 0 then "" else pieces[0] + Concat(pieces[1..])
  }

  lemma {:induction false} ConcatAppend(p: seq<string>, q: seq<string>)
    ensures Concat(p + q) == Concat(p) + Concat(q)
    decreases |p|
  {
    if |p| > 0 {
      assert (p + q)[1..] == p[1..] + q;
      ConcatAppend(p[1..], q);
    } else {
      assert p + q == q;
    }
  }

  /** `s` occurs in `text` at position `i`. */
  predicate OccursAt(text: string, s: string, i: int) {
    0 <= i <= |text| - |s| && text[i..i + |s|] == s
  }

  /** `s` occurs in `text`. */
  predicate Contains(text: string, s: string) {
    exists i | 0 <= i <= |text| :: OccursAt(text, s, i)
  }

  /** Every piece occurs in the text of the pieces. */
  lemma {:induction false} ConcatContains(p: seq<string>, k: nat)
    requires k < |p|
    ensures Contains(Concat(p), p[k])
  {
    var before, after := p[..k], p[k + 1..];
    assert p == before + [p[k]] + after;
    ConcatAppend(before + [p[k]], after);
    ConcatAppend(before, [p[k]]);
    assert Concat([p[k]]) == p[k];
    var text := Concat(before) + p[k] + Concat(after);
    var i := |Concat(before)|;
    assert text[i..i + |p[k]|] == p[k];
    assert OccursAt(text, p[k], i);
  }

  /** The joins of the custom-field snippets, which skip empty and null data. */
  const PosDataJoin := "on pa.positionid=ptid.positionid and ptid.data != '' and ptid.data is not null "
  const OrgDataJoin := "on pa.organisationid=otid.organisationid and otid.data != '' and otid.data is not null "

  /**
   * The pieces before the comparison in a handler's snippet, as the handler
   * class writes them.
   */
  function HeadPieces(h: DateHandler, cast: string -> string): seq<string> {
    var primary := IntToString(PositionTypePrimary);
    match h
    case UserField(field) =>
      ["u.", field, " "]
    case UserCustomField(field) =>
      ["exists(",
       "select 1 from {user_info_data} usinda ",
       "where usinda.userid=u.id ",
       "and usinda.fieldid=" + field + " ",
       "and ", cast("usinda.data"), " "]
    case PosStarted =>
      ["exists(",
       "select 1 ",
       "from {prog_pos_assignment} ppa ",
       "inner join {pos} p ",
       "on ppa.positionid=p.id ",
       "where ppa.userid=u.id ",
       "and ppa.type=" + primary + " ",
       "and ppa.timeassigned "]
    case PosCustomField(field) =>
      ["exists(",
       "select 1 ",
       "from {pos_assignment} pa ",
       "inner join {pos_type_info_data} ptid ",
       PosDataJoin,
       "where pa.userid=u.id ",
       "and pa.type=" + primary + " ",
       "and ptid.fieldid=" + field + " ",
       "and ", cast("ptid.data"), " "]
    case OrgCustomField(field) =>
      ["exists(",
       "select 1 ",
       "from {pos_assignment} pa ",
       "inner join {org_type_info_data} otid ",
       OrgDataJoin,
       "where pa.userid=u.id ",
       "and pa.type=" + primary + " ",
       "and otid.fieldid=" + field + " ",
       "and ", cast("otid.data"), " "]
  }

  /** The pieces after the comparison: the sub-queries close their `exists(`. */
  function TailPieces(h: DateHandler): seq<string> {
    if h.UserField? then [] else [")"]
  }

  /**
   * `construct_sql_snippet` of the five handler classes: the comparison
   * text wrapped in the handler's SQL.  Values are inlined into the text,
   * so no parameter is ever bound.
   */
  function ConstructSqlSnippet(h: DateHandler, comparison: string, cast: string -> string): (r: SqlSnippet)
    ensures r.params == []
    ensures Contains(r.sql, comparison)
  {
    var pieces := HeadPieces(h, cast) + [comparison] + TailPieces(h);
    ConcatContains(pieces, |HeadPieces(h, cast)|);
    SqlSnippet(Concat(pieces), [])
  }

  /**
   * A rule whose operator code is not one of the six.  The `switch` has no
   * default case, so the comparison variable is never assigned; PHP raises
   * a notice and reads it as null, which interpolates as the empty text.
   * `built` is the snippet that results.
   */
  datatype SnippetError = UnknownOperator(code: int, built: SqlSnippet)

  /**
   * `get_sql_snippet`: the comparison for the rule's operator and value,
   * wrapped by the handler.  An operator code outside the six known ones
   * builds no comparison: that is reported as an error, together with the
   * snippet with an empty comparison that the code goes on to build.
   */
  function GetSqlSnippet(h: DateHandler, operator: int, date: int, now: int, cast: string -> string)
    : (r: Result<SqlSnippet, SnippetError>)
    ensures r.Err? <==> operator !in {10, 20, 30, 40, 50, 60}
    ensures r.Err? ==> r.error == UnknownOperator(operator, ConstructSqlSnippet(h, "", cast))
    ensures r.Ok? ==> r.value.params == []
    ensures r.Ok? ==>
      exists op: DateOperator ::
        && op.Code() == operator
        && r.value == ConstructSqlSnippet(h, ComparisonText(ComparisonFor(op, date, now)), cast)
  {
    match OperatorFromCode(operator)
    case None => Err(UnknownOperator(operator, ConstructSqlSnippet(h, "", cast)))
    case Some(op) => Ok(ConstructSqlSnippet(h, ComparisonText(ComparisonFor(op, date, now)), cast))
  }

  // ---------------------------------------------------------------------
  // Properties of the snippets
  // ---------------------------------------------------------------------

  /** The user-column snippet is the aliased column, a space and the comparison. */
  lemma UserFieldSnippet(field: string, comparison: string, cast: string -> string)
    ensures ConstructSqlSnippet(UserField(field), comparison, cast) == SqlSnippet("u." + field + " " + comparison, [])
  {
    var p := HeadPieces(UserField(field), cast) + [comparison] + TailPieces(UserField(field));
    assert p == ["u.", field, " ", comparison];
    assert Concat(p[3..]) == comparison;
    assert Concat(p[2..]) == " " + comparison;
    assert Concat(p[1..]) == field + (" " + comparison);
    assert Concat(p) == "u." + (field + (" " + comparison));
  }

  /**
   * The operator table, end to end: the fixed-date operators inline the
   * value, the relative ones inline bounds computed from `now`.
   */
  lemma OperatorComparisons(date: int, now: int)
    ensures ComparisonText(ComparisonFor(OperatorFromCode(10).value, date, now)) == "<= " + IntToString(date)
    ensures ComparisonText(ComparisonFor(OperatorFromCode(20).value, date, now)) == ">= " + IntToString(date)
    ensures ComparisonText(ComparisonFor(OperatorFromCode(30).value, date, now))
      == "<= " + IntToString(now - date * 86400)
    ensures ComparisonText(ComparisonFor(OperatorFromCode(40).value, date, now))
      == "BETWEEN " + IntToString(now - date * 86400) + " AND " + IntToString(now)
    ensures ComparisonText(ComparisonFor(OperatorFromCode(50).value, date, now))
      == "BETWEEN " + IntToString(now) + " AND " + IntToString(now + date * 86400)
    ensures ComparisonText(ComparisonFor(OperatorFromCode(60).value, date, now))
      == ">= " + IntToString(now + date * 86400)
  {
    assert date * SecondsPerDay == date * 86400;
    assert OperatorFromCode(10).value == BeforeFixedDate;
    assert OperatorFromCode(20).value == AfterFixedDate;
    assert OperatorFromCode(30).value == BeforePastDuration;
    assert OperatorFromCode(40).value == WithinPastDuration;
    assert OperatorFromCode(50).value == WithinFutureDuration;
    assert OperatorFromCode(60).value == AfterFutureDuration;
  }

  /**
   * The snippet determines the comparison: for a given handler, two rules
   * give the same SQL only when they select the same timestamps.
   */
  lemma SnippetDeterminesComparison(h: DateHandler, c1: Comparison, c2: Comparison, cast: string -> string)
    requires ConstructSqlSnippet(h, ComparisonText(c1), cast).sql == ConstructSqlSnippet(h, ComparisonText(c2), cast).sql
    ensures c1 == c2
  {
    var head, tail := HeadPieces(h, cast), TailPieces(h);
    var t1, t2 := ComparisonText(c1), ComparisonText(c2);
    ConcatAppend(head + [t1], tail);
    ConcatAppend(head, [t1]);
    ConcatAppend(head + [t2], tail);
    ConcatAppend(head, [t2]);
    assert Concat([t1]) == t1 && Concat([t2]) == t2;
    var s1 := Concat(head) + t1 + Concat(tail);
    var s2 := Concat(head) + t2 + Concat(tail);
    assert s1 == s2;
    var n := |Concat(head)|;
    assert |t1| == |t2|;
    assert s1[n..n + |t1|] == t1;
    assert s2[n..n + |t2|] == t2;
    ComparisonTextInjective(c1, c2);
  }

  /**
   * The three position and organisation snippets restrict to the primary
   * position assignment; the primary-position handler needs no field at all.
   */
  lemma AssignmentSnippetsUsePrimaryPosition(h: DateHandler, comparison: string, cast: string -> string)
    requires h.PosStarted? || h.PosCustomField? || h.OrgCustomField?
    ensures Contains(ConstructSqlSnippet(h, comparison, cast).sql,
                     (if h.PosStarted? then "and ppa.type=" else "and pa.type=") + IntToString(PositionTypePrimary) + " ")
  {
    var p := HeadPieces(h, cast) + [comparison] + TailPieces(h);
    var primary := IntToString(PositionTypePrimary);
    if h.PosStarted? {
      assert p[6] == "and ppa.type=" + primary + " ";
    } else if h.PosCustomField? {
      assert p[6] == "and pa.type=" + primary + " ";
    } else {
      assert p[6] == "and pa.type=" + primary + " ";
    }
    ConcatContains(p, 6);
  }

  /**
   * The custom-field snippets of positions and organisations only read
   * non-empty, non-null data of the given field id.
   */
  lemma CustomFieldSnippetsFilterData(h: DateHandler, comparison: string, cast: string -> string)
    requires h.PosCustomField? || h.OrgCustomField?
    ensures var sql := ConstructSqlSnippet(h, comparison, cast).sql;
      && Contains(sql, if h.PosCustomField?
                       then PosDataJoin
                       else OrgDataJoin)
      && Contains(sql, (if h.PosCustomField? then "and ptid.fieldid=" else "and otid.fieldid=") + h.field + " ")
  {
    var p := HeadPieces(h, cast) + [comparison] + TailPieces(h);
    if h.PosCustomField? {
      assert p[4] == PosDataJoin;
      assert p[7] == "and ptid.fieldid=" + h.field + " ";
    } else {
      assert p[4] == OrgDataJoin;
      assert p[7] == "and otid.fieldid=" + h.field + " ";
    }
    ConcatContains(p, 4);
    ConcatContains(p, 7);
  }
}
