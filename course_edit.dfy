/**
 * The two decisions the course settings page makes after its form is
 * submitted: where a cancelled edit returns to, and how the course's
 * audience (cohort) associations are brought in line with the audiences
 * chosen in the form.
 *
 * Cohort ids are handled as text: the submitted lists are comma-separated
 * text and `array_diff` compares entries by their string form.
 */
module CourseEdit {
  import opened Php

  // ---------------------------------------------------------------------
  // Cancel redirect
  // ---------------------------------------------------------------------

  /** The pages a cancelled edit can return to. */
  datatype Url =
    | CategoryListing(categoryid: int)     // course/index.php?categoryid=..
    | CategoryManagement(categoryid: int)  // course/manage.php?categoryid=..
    | Management                           // course/manage.php
    | CourseListing                        // course/
    | CourseView(id: int)                  // course/view.php?id=..

  /**
   * The `switch ($returnto)` of a cancelled edit.  `returnto` is the
   * integer 0 when the page had no such parameter and an alphanumeric
   * string otherwise; `courseid` is 0 when a new course is being created.
   */
  function CancelUrl(returnto: Value, categoryid: int, courseid: int): (r: Url)
    ensures r.CategoryListing? || r.CategoryManagement? ==> r.categoryid == categoryid
    ensures r.CourseView? ==> r.id == courseid && courseid != 0
  {
    if SwitchMatches(returnto, "category") then CategoryListing(categoryid)
    else if SwitchMatches(returnto, "catmanage") then CategoryManagement(categoryid)
    else if SwitchMatches(returnto, "topcatmanage") then Management
    else if SwitchMatches(returnto, "topcat") then CourseListing
    else if courseid != 0 then CourseView(courseid)
    else CourseListing
  }

  /** The four return words. */
  predicate IsReturnWord(s: string) {
    s == "category" || s == "catmanage" || s == "topcatmanage" || s == "topcat"
  }

  /**
   * For a textual `returnto`, each return word leads to its own page and
   * every other text leads back to the course, or to the course listing
   * when there is no course yet.
   */
  lemma CancelUrlOfText(s: string, categoryid: int, courseid: int)
    ensures CancelUrl(Str(s), categoryid, courseid) == CategoryListing(categoryid) <==> s == "category"
    ensures CancelUrl(Str(s), categoryid, courseid) == CategoryManagement(categoryid) <==> s == "catmanage"
    ensures CancelUrl(Str(s), categoryid, courseid) == Management <==> s == "topcatmanage"
    ensures CancelUrl(Str(s), categoryid, courseid).CourseView? <==> !IsReturnWord(s) && courseid != 0
    ensures CancelUrl(Str(s), categoryid, courseid) == CourseListing <==> s == "topcat" || (!IsReturnWord(s) && courseid == 0)
  {
  }

  /**
   * Without a `returnto` parameter the value is the integer 0, which a
   * loose comparison finds equal to the first word label: the cancelled
   * edit goes to the category listing, not back to the course.
   */
  lemma CancelWithoutReturnto(categoryid: int, courseid: int)
    ensures CancelUrl(Int(0), categoryid, courseid) == CategoryListing(categoryid)
  {
    ZeroMatchesEveryWordLabel("category");
  }

  // ---------------------------------------------------------------------
  // Audience reconciliation
  // ---------------------------------------------------------------------

  /** The two kinds of course audience. */
  datatype AssocKind = Enrolled | Visible

  /** The association calls the reconciliation issues, in order. */
  datatype Call =
    | Deleted(cohortid: string, associd: nat, kind: AssocKind)
    | Added(cohortid: string, kind: AssocKind)

  /**
   * The audiences a submitted field asks for: nothing when the field is
   * missing or empty (`empty()` holds for "0" too), else its comma-separated
   * pieces.
   */
  function Targets(field: Option<string>): (ids: seq<string>)
    ensures field.None? || EmptyString(field.value) ==> ids == []
    ensures field.Some? && !EmptyString(field.value) ==> Implode(',', ids) == field.value
    ensures forall i :: 0 <= i < |ids| ==> ',' !in ids[i]
  {
    match field
    case None => []
    case Some(s) =>
      if EmptyString(s) then []
      else ImplodeExplode(',', s); ExplodeShape(',', s); Explode(',', s)
  }

  /** The entries of a list, as a set. */
  function Elems(s: seq<string>): set<string> {
    set c | c in s
  }

  /** The deletions issued for `ids`, each with the association id stored for that cohort. */
  function DeleteCalls(ids: seq<string>, stored: map<string, nat>, kind: AssocKind): (calls: seq<Call>)
    requires forall c :: c in ids ==> c in stored
    decreases |ids|
  {
    if |ids| == 0 then []
    else DeleteCalls(ids[..|ids| - 1], stored, kind) + [Deleted(ids[|ids| - 1], stored[ids[|ids| - 1]], kind)]
  }

  /** The additions issued for `ids`. */
  function AddCalls(ids: seq<string>, kind: AssocKind): (calls: seq<Call>)
    decreases |ids|
  {
    if |ids| == 0 then []
    else AddCalls(ids[..|ids| - 1], kind) + [Added(ids[|ids| - 1], kind)]
  }

  /**
   * The calls one reconciliation issues: a deletion for each current
   * cohort not asked for, then an addition for each cohort asked for that
   * is not current.
   */
  function ReconcileCalls(current: seq<string>, targets: seq<string>, stored: map<string, nat>, kind: AssocKind): (calls: seq<Call>)
    requires forall c :: c in current ==> c in stored
  {
    DeleteCalls(ArrayDiff(current, Elems(targets)), stored, kind) + AddCalls(ArrayDiff(targets, Elems(current)), kind)
  }

  /** Every deletion names a listed cohort and the association id stored for it, one per listed id. */
  lemma {:induction false} DeleteCallsUseStoredIds(ids: seq<string>, stored: map<string, nat>, kind: AssocKind)
    requires forall c :: c in ids ==> c in stored
    ensures |DeleteCalls(ids, stored, kind)| == |ids|
    ensures forall k :: 0 <= k < |ids| ==>
      DeleteCalls(ids, stored, kind)[k] == Deleted(ids[k], stored[ids[k]], kind)
    decreases |ids|
  {
    if |ids| > 0 {
      DeleteCallsUseStoredIds(ids[..|ids| - 1], stored, kind);
    }
  }

  /** Every addition names a listed cohort, one per listed id. */
  lemma {:induction false} AddCallsAreListed(ids: seq<string>, kind: AssocKind)
    ensures |AddCalls(ids, kind)| == |ids|
    ensures forall k :: 0 <= k < |ids| ==> AddCalls(ids, kind)[k] == Added(ids[k], kind)
    decreases |ids|
  {
    if |ids| > 0 {
      AddCallsAreListed(ids[..|ids| - 1], kind);
    }
  }

  /**
   * The sets the reconciliation works with: the cohorts to delete are the
   * current ones not asked for, those to add are the ones asked for that
   * are not current, and a cohort in both is in neither.  Taking the first
   * away and adding the second leaves exactly the requested cohorts.
   */
  lemma ReconcileSets(current: seq<string>, targets: seq<string>)
    ensures forall c :: c in ArrayDiff(current, Elems(targets)) <==> c in current && c !in targets
    ensures forall c :: c in ArrayDiff(targets, Elems(current)) <==> c in targets && c !in current
    ensures forall c :: c in current && c in targets ==>
      c !in ArrayDiff(current, Elems(targets)) && c !in ArrayDiff(targets, Elems(current))
    ensures (Elems(current) - Elems(ArrayDiff(current, Elems(targets)))) + Elems(ArrayDiff(targets, Elems(current))) == Elems(targets)
  {
  }

  lemma CallsAssoc(a: seq<Call>, b: seq<Call>, c: seq<Call>)
    ensures a + b + c == a + (b + c)
  {
  }

  /**
   * Deleting the cohorts not asked for from the stored table, then adding
   * the ones asked for that were not there, gives a table holding exactly
   * the requested cohorts, where those already stored keep their ids.
   */
  lemma ReconciledTable(current: seq<string>, targets: seq<string>,
                        stored: map<string, nat>, kept: map<string, nat>, final: map<string, nat>)
    requires stored.Keys == Elems(current)
    requires kept == stored - Elems(ArrayDiff(current, Elems(targets)))
    requires final.Keys == kept.Keys + Elems(ArrayDiff(targets, Elems(current)))
    requires forall c :: c in kept && c !in ArrayDiff(targets, Elems(current)) ==> final[c] == kept[c]
    ensures final.Keys == Elems(targets)
    ensures forall c :: c in stored && c in targets ==> final[c] == stored[c]
  {
    ReconcileSets(current, targets);
  }

  /**
   * The table of audience associations of one course: for each kind, the
   * associated cohorts and their association ids, the next association id
   * to hand out and the calls issued so far.
   */
  class CourseAudiences {
    var enrolled: map<string, nat>
    var visible: map<string, nat>
    var nextAssocId: nat
    var calls: seq<Call>

    /** Association ids already handed out lie below the next one. */
    predicate Valid()
      reads this
    {
      (forall c :: c in enrolled ==> enrolled[c] < nextAssocId)
      && (forall c :: c in visible ==> visible[c] < nextAssocId)
    }

    function Table(kind: AssocKind): map<string, nat>
      reads this
    {
      if kind == Enrolled then enrolled else visible
    }

    constructor (enrolled0: map<string, nat>, visible0: map<string, nat>, nextAssocId0: nat)
      requires forall c :: c in enrolled0 ==> enrolled0[c] < nextAssocId0
      requires forall c :: c in visible0 ==> visible0[c] < nextAssocId0
      ensures Valid()
      ensures enrolled == enrolled0 && visible == visible0 && nextAssocId == nextAssocId0 && calls == []
    {
      enrolled := enrolled0;
      visible := visible0;
      nextAssocId := nextAssocId0;
      calls := [];
    }

    /** `totara_cohort_delete_association`: drops the cohort from the table of that kind. */
    method DeleteAssociation(cohortid: string, associd: nat, kind: AssocKind)
      requires Valid()
      modifies this
      ensures Valid()
      ensures Table(kind) == old(Table(kind)) - {cohortid}
      ensures kind == Enrolled ==> visible == old(visible)
      ensures kind == Visible ==> enrolled == old(enrolled)
      ensures nextAssocId == old(nextAssocId)
      ensures calls == old(calls) + [Deleted(cohortid, associd, kind)]
    {
      if kind == Enrolled {
        enrolled := enrolled - {cohortid};
      } else {
        visible := visible - {cohortid};
      }
      calls := calls + [Deleted(cohortid, associd, kind)];
    }

    /** `totara_cohort_add_association`: records the cohort under a fresh association id. */
    method AddAssociation(cohortid: string, kind: AssocKind)
      requires Valid()
      modifies this
      ensures Valid()
      ensures Table(kind) == old(Table(kind))[cohortid := old(nextAssocId)]
      ensures kind == Enrolled ==> visible == old(visible)
      ensures kind == Visible ==> enrolled == old(enrolled)
      ensures nextAssocId == old(nextAssocId) + 1
      ensures calls == old(calls) + [Added(cohortid, kind)]
    {
      if kind == Enrolled {
        enrolled := enrolled[cohortid := nextAssocId];
      } else {
        visible := visible[cohortid := nextAssocId];
      }
      nextAssocId := nextAssocId + 1;
      calls := calls + [Added(cohortid, kind)];
    }

    /**
     * Deletes the associations of `todelete`, as the first loop of the
     * reconciliation does.
     */
    method DeleteAll(todelete: seq<string>, kind: AssocKind)
      requires Valid()
      requires forall c :: c in todelete ==> c in Table(kind)
      modifies this
      ensures Valid()
      ensures Table(kind) == old(Table(kind)) - Elems(todelete)
      ensures kind == Enrolled ==> visible == old(visible)
      ensures kind == Visible ==> enrolled == old(enrolled)
      ensures nextAssocId == old(nextAssocId)
      ensures calls == old(calls) + DeleteCalls(todelete, old(Table(kind)), kind)
    {
      var stored := Table(kind);
      var i := 0;
      while i < |todelete|
        invariant 0 <= i <= |todelete|
        invariant Valid()
        invariant Table(kind) == stored - Elems(todelete[..i])
        invariant kind == Enrolled ==> visible == old(visible)
        invariant kind == Visible ==> enrolled == old(enrolled)
        invariant nextAssocId == old(nextAssocId)
        invariant calls == old(calls) + DeleteCalls(todelete[..i], stored, kind)
      {
        var cohortid := todelete[i];
        DeleteAssociation(cohortid, stored[cohortid], kind);
        assert todelete[..i + 1][..i] == todelete[..i];
        assert Elems(todelete[..i + 1]) == Elems(todelete[..i]) + {cohortid};
        i := i + 1;
      }
      assert todelete[..i] == todelete;
    }

    /**
     * Adds an association for each of `toadd`, as the second loop of the
     * reconciliation does.
     */
    method AddAll(toadd: seq<string>, kind: AssocKind)
      requires Valid()
      modifies this
      ensures Valid()
      ensures Table(kind).Keys == old(Table(kind)).Keys + Elems(toadd)
      ensures forall c :: c in old(Table(kind)) && c !in toadd ==> Table(kind)[c] == old(Table(kind))[c]
      ensures kind == Enrolled ==> visible == old(visible)
      ensures kind == Visible ==> enrolled == old(enrolled)
      ensures nextAssocId == old(nextAssocId) + |toadd|
      ensures calls == old(calls) + AddCalls(toadd, kind)
    {
      var stored := Table(kind);
      var i := 0;
      while i < |toadd|
        invariant 0 <= i <= |toadd|
        invariant Valid()
        invariant Table(kind).Keys == stored.Keys + Elems(toadd[..i])
        invariant forall c :: c in stored && c !in toadd[..i] ==> Table(kind)[c] == stored[c]
        invariant kind == Enrolled ==> visible == old(visible)
        invariant kind == Visible ==> enrolled == old(enrolled)
        invariant nextAssocId == old(nextAssocId) + i
        invariant calls == old(calls) + AddCalls(toadd[..i], kind)
      {
        var cohortid := toadd[i];
        AddAssociation(cohortid, kind);
        assert toadd[..i + 1][..i] == toadd[..i];
        assert Elems(toadd[..i + 1]) == Elems(toadd[..i]) + {cohortid};
        i := i + 1;
      }
      assert toadd[..i] == toadd;
    }

    /**
     * Brings the associations of one kind in line with the requested
     * cohorts.  `current` lists the cohorts the table holds, as the lookup
     * of the current associations returns them.
     */
    method Reconcile(current: seq<string>, requested: Option<string>, kind: AssocKind)
      requires Valid()
      requires forall c :: c in current <==> c in Table(kind)
      modifies this
      ensures Valid()
      ensures Table(kind).Keys == Elems(Targets(requested))
      ensures forall c :: c in old(Table(kind)) && c in Targets(requested) ==> Table(kind)[c] == old(Table(kind))[c]
      ensures kind == Enrolled ==> visible == old(visible)
      ensures kind == Visible ==> enrolled == old(enrolled)
      ensures nextAssocId == old(nextAssocId) + |ArrayDiff(Targets(requested), Elems(current))|
      ensures calls == old(calls) + ReconcileCalls(current, Targets(requested), old(Table(kind)), kind)
    {
      var newcohorts := Targets(requested);
      ghost var stored := Table(kind);
      var todelete := ArrayDiff(current, Elems(newcohorts));
      DeleteAll(todelete, kind);
      ghost var kept := Table(kind);
      var toadd := ArrayDiff(newcohorts, Elems(current));
      AddAll(toadd, kind);
      ReconciledTable(current, newcohorts, stored, kept, Table(kind));
      CallsAssoc(old(calls), DeleteCalls(todelete, stored, kind), AddCalls(toadd, kind));
    }

    /**
     * The audience update after a saved edit: nothing happens without the
     * cohort-manage capability; with it, the enrolled audiences are
     * reconciled, and so are the visible ones when audience visibility is
     * on and the visibility capability is held too.
     */
    method UpdateCourseCohorts(
      canManageCohorts: bool, audienceVisibility: bool, canManageVisibility: bool,
      currentEnrolled: seq<string>, cohortsenrolled: Option<string>,
      currentVisible: seq<string>, cohortsvisible: Option<string>)
      requires Valid()
      requires forall c :: c in currentEnrolled <==> c in enrolled
      requires forall c :: c in currentVisible <==> c in visible
      modifies this
      ensures Valid()
      ensures !canManageCohorts ==> enrolled == old(enrolled) && visible == old(visible) && calls == old(calls)
      ensures canManageCohorts ==> enrolled.Keys == Elems(Targets(cohortsenrolled))
      ensures canManageCohorts ==> forall c :: c in old(enrolled) && c in Targets(cohortsenrolled) ==> enrolled[c] == old(enrolled)[c]
      ensures canManageCohorts && audienceVisibility && canManageVisibility ==> visible.Keys == Elems(Targets(cohortsvisible))
      ensures canManageCohorts && audienceVisibility && canManageVisibility ==>
        forall c :: c in old(visible) && c in Targets(cohortsvisible) ==> visible[c] == old(visible)[c]
      ensures !(canManageCohorts && audienceVisibility && canManageVisibility) ==> visible == old(visible)
      ensures !canManageCohorts ==> nextAssocId == old(nextAssocId)
      ensures canManageCohorts ==>
        calls == old(calls)
          + ReconcileCalls(currentEnrolled, Targets(cohortsenrolled), old(enrolled), Enrolled)
          + (if audienceVisibility && canManageVisibility
             then ReconcileCalls(currentVisible, Targets(cohortsvisible), old(visible), Visible)
             else [])
      ensures canManageCohorts ==>
        nextAssocId == old(nextAssocId)
          + |ArrayDiff(Targets(cohortsenrolled), Elems(currentEnrolled))|
          + (if audienceVisibility && canManageVisibility
             then |ArrayDiff(Targets(cohortsvisible), Elems(currentVisible))|
             else 0)
    {
      if canManageCohorts {
        Reconcile(currentEnrolled, cohortsenrolled, Enrolled);
        if audienceVisibility && canManageVisibility {
          Reconcile(currentVisible, cohortsvisible, Visible);
        }
      }
    }
  }

  /**
   * An empty audience field empties the table: every current association
   * is deleted, with its stored id, and nothing is added.
   */
  lemma EmptyRequestDeletesAll(current: seq<string>, stored: map<string, nat>, kind: AssocKind)
    requires forall c :: c in current <==> c in stored
    ensures ArrayDiff(current, Elems(Targets(Some("")))) == current
    ensures ArrayDiff(Targets(Some("")), Elems(current)) == []
    ensures |DeleteCalls(current, stored, kind)| == |current|
    ensures forall k :: 0 <= k < |current| ==>
      DeleteCalls(current, stored, kind)[k] == Deleted(current[k], stored[current[k]], kind)
  {
    assert Elems(Targets(Some(""))) == {};
    ArrayDiffNothing(current);
    DeleteCallsUseStoredIds(current, stored, kind);
  }

  /** Taking nothing away keeps the whole list. */
  lemma {:induction false} ArrayDiffNothing(a: seq<string>)
    ensures ArrayDiff(a, {}) == a
    decreases |a|
  {
    if |a| > 0 {
      ArrayDiffNothing(a[1..]);
    }
  }
}
