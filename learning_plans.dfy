/** The learning-plan tables as the portal stores them: plans, the
    competencies of a plan, the goals under a competency, and the KSA and
    course links of a goal. Included here: the `save` overrides that stamp the
    owning plan's `modified`, the cascades of the foreign keys, and the rows
    `transaction.atomic` rolls back to. */
module LearningPlans {
  import opened Outcomes
  import opened JsonValues
  import opened Calendar
  import opened Elrr
  import opened ElrrClient

  datatype Plan = Plan(learner: Learner, name: string, timeframe: string, modified: DateTime)

  /** A competency of a plan; `competency` is the reference of its catalog row. */
  datatype PlanCompetency = PlanCompetency(learningPlan: nat, competency: string, priority: string, modified: DateTime)

  /** A goal; `timeline` is the month count the ELRR sync reads, `details` the
      free-text columns (resources, obstacles), `elrrGoalId` the ELRR id or
      JNull. */
  datatype Goal = Goal(planCompetency: nat, goalName: string, timeline: int, details: Dict,
                       created: DateTime, modified: DateTime, elrrGoalId: Json)

  /** A KSA or course link of a goal; `item` is the reference of its catalog
      row, `attrs` the remaining columns (the proficiencies of a KSA link),
      `elrrId` the id the ELRR goal's array holds for it, or JNull. */
  datatype Link = Link(planGoal: nat, item: string, attrs: Dict, modified: DateTime, elrrId: Json)

  /** Every row `transaction.atomic` can roll back. */
  datatype Rows = Rows(plans: map<nat, Plan>, competencies: map<nat, PlanCompetency>, goals: map<nat, Goal>,
                       ksaLinks: map<nat, Link>, courseLinks: map<nat, Link>)

  function Links(rows: Rows, kind: LinkKind): map<nat, Link> {
    if kind.KsaLink? then rows.ksaLinks else rows.courseLinks
  }

  /** Every foreign key points at an existing row, and every goal was created
      on a real calendar date. */
  predicate Consistent(rows: Rows) {
    (forall c :: c in rows.competencies ==> rows.competencies[c].learningPlan in rows.plans)
    && (forall g :: g in rows.goals ==>
          rows.goals[g].planCompetency in rows.competencies && ValidDate(rows.goals[g].created.date))
    && (forall l :: l in rows.ksaLinks ==> rows.ksaLinks[l].planGoal in rows.goals)
    && (forall l :: l in rows.courseLinks ==> rows.courseLinks[l].planGoal in rows.goals)
  }

  /** Every id in use is below `n`, the next value of the id sequence. */
  predicate Below(rows: Rows, n: nat) {
    (forall k :: k in rows.plans ==> k < n)
    && (forall k :: k in rows.competencies ==> k < n)
    && (forall k :: k in rows.goals ==> k < n)
    && (forall k :: k in rows.ksaLinks ==> k < n)
    && (forall k :: k in rows.courseLinks ==> k < n)
  }

  /** `goal.plan_competency.learning_plan` */
  function PlanOfGoal(rows: Rows, goalId: nat): nat
    requires Consistent(rows) && goalId in rows.goals
  {
    rows.competencies[rows.goals[goalId].planCompetency].learningPlan
  }

  /** `learning_plan.save(update_fields=['modified'])` */
  function Stamp(plans: map<nat, Plan>, p: nat, now: DateTime): map<nat, Plan>
    requires p in plans
  {
    plans[p := plans[p].(modified := now)]
  }

  /** `LearningPlanCompetency.save`: the row is written, then its plan stamped. */
  function WithCompetency(rows: Rows, id: nat, c: PlanCompetency, now: DateTime): (r: Rows)
    requires Consistent(rows) && c.learningPlan in rows.plans
    ensures Consistent(r)
  {
    rows.(competencies := rows.competencies[id := c.(modified := now)],
          plans := Stamp(rows.plans, c.learningPlan, now))
  }

  /** `LearningPlanGoal.save`: the row is written, then the plan of its
      competency stamped. */
  function WithGoal(rows: Rows, id: nat, g: Goal, now: DateTime): (r: Rows)
    requires Consistent(rows) && g.planCompetency in rows.competencies && ValidDate(g.created.date)
    ensures Consistent(r)
  {
    rows.(goals := rows.goals[id := g.(modified := now)],
          plans := Stamp(rows.plans, rows.competencies[g.planCompetency].learningPlan, now))
  }

  /** `LearningPlanGoalKsa.save` stamps the plan of the goal's competency. The
      course link's model is not part of this model; its save is taken to be
      the plain one, which stamps nothing. */
  function WithLink(rows: Rows, kind: LinkKind, id: nat, l: Link, now: DateTime): (r: Rows)
    requires Consistent(rows) && l.planGoal in rows.goals
    ensures Consistent(r)
  {
    match kind
    case KsaLink =>
      rows.(ksaLinks := rows.ksaLinks[id := l.(modified := now)],
            plans := Stamp(rows.plans, PlanOfGoal(rows, l.planGoal), now))
    case CourseLink =>
      rows.(courseLinks := rows.courseLinks[id := l.(modified := now)])
  }

  /** Deleting a goal: `on_delete=CASCADE` takes its KSA and course links along. */
  function WithoutGoal(rows: Rows, id: nat): (r: Rows)
    requires Consistent(rows)
    ensures Consistent(r)
  {
    rows.(goals := rows.goals - {id},
          ksaLinks := map l | l in rows.ksaLinks && rows.ksaLinks[l].planGoal != id :: rows.ksaLinks[l],
          courseLinks := map l | l in rows.courseLinks && rows.courseLinks[l].planGoal != id :: rows.courseLinks[l])
  }

  /** Deleting one link. */
  function WithoutLink(rows: Rows, kind: LinkKind, id: nat): (r: Rows)
    requires Consistent(rows)
    ensures Consistent(r)
  {
    match kind
    case KsaLink => rows.(ksaLinks := rows.ksaLinks - {id})
    case CourseLink => rows.(courseLinks := rows.courseLinks - {id})
  }

  /** A save writes its own row and stamps exactly one plan, the owning one:
      every other plan, and every other table, is left as it was. */
  lemma GoalSaveStampsOnlyItsPlan(rows: Rows, id: nat, g: Goal, now: DateTime, q: nat)
    requires Consistent(rows) && g.planCompetency in rows.competencies && ValidDate(g.created.date)
    ensures var r := WithGoal(rows, id, g, now);
      var p := rows.competencies[g.planCompetency].learningPlan;
      r.plans.Keys == rows.plans.Keys && r.plans[p].modified == now
      && (q in rows.plans && q != p ==> r.plans[q] == rows.plans[q])
      && r.goals[id] == g.(modified := now)
      && (q != id && q in rows.goals ==> r.goals[q] == rows.goals[q])
      && r.competencies == rows.competencies && r.ksaLinks == rows.ksaLinks && r.courseLinks == rows.courseLinks
  {
  }

  /** A KSA link save stamps the owning plan; a course link save stamps none. */
  lemma LinkSaveStamps(rows: Rows, kind: LinkKind, id: nat, l: Link, now: DateTime, q: nat)
    requires Consistent(rows) && l.planGoal in rows.goals
    ensures var r := WithLink(rows, kind, id, l, now);
      var p := PlanOfGoal(rows, l.planGoal);
      Links(r, kind)[id] == l.(modified := now)
      && (q != id && q in Links(rows, kind) ==> Links(r, kind)[q] == Links(rows, kind)[q])
      && (kind.KsaLink? ==> r.plans[p].modified == now && (q in rows.plans && q != p ==> r.plans[q] == rows.plans[q]))
      && (kind.CourseLink? ==> r.plans == rows.plans)
      && r.goals == rows.goals && r.competencies == rows.competencies
  {
  }

  /** The cascade removes exactly the links of the deleted goal: no link
      survives that points at it, and every other link keeps its row. */
  lemma CascadeRemovesExactlyItsLinks(rows: Rows, id: nat, kind: LinkKind, l: nat)
    requires Consistent(rows)
    ensures var r := WithoutGoal(rows, id);
      id !in r.goals
      && (l in Links(r, kind) <==> l in Links(rows, kind) && Links(rows, kind)[l].planGoal != id)
      && (l in Links(r, kind) ==> Links(r, kind)[l] == Links(rows, kind)[l])
  {
  }

  /** Two saves of the same goal under the same competency in one request
      amount to the last one. */
  lemma WithGoalTwice(rows: Rows, id: nat, g: Goal, g': Goal, now: DateTime)
    requires Consistent(rows) && g.planCompetency in rows.competencies && ValidDate(g.created.date)
    requires g'.planCompetency == g.planCompetency && ValidDate(g'.created.date)
    ensures WithGoal(WithGoal(rows, id, g, now), id, g', now) == WithGoal(rows, id, g', now)
  {
    var p := rows.competencies[g.planCompetency].learningPlan;
    var once := WithGoal(rows, id, g, now);
    assert once == rows.(goals := rows.goals[id := g.(modified := now)], plans := Stamp(rows.plans, p, now));
    assert once.competencies[g'.planCompetency].learningPlan == p;
    assert Stamp(once.plans, p, now) == Stamp(rows.plans, p, now);
    assert once.goals[id := g'.(modified := now)] == rows.goals[id := g'.(modified := now)];
  }

  /** The same for two saves of one link. */
  lemma WithLinkTwice(rows: Rows, kind: LinkKind, id: nat, l: Link, l': Link, now: DateTime)
    requires Consistent(rows) && l.planGoal in rows.goals && l'.planGoal == l.planGoal
    ensures WithLink(WithLink(rows, kind, id, l, now), kind, id, l', now) == WithLink(rows, kind, id, l', now)
  {
    var once := WithLink(rows, kind, id, l, now);
    if kind.KsaLink? {
      var p := PlanOfGoal(rows, l.planGoal);
      assert once == rows.(ksaLinks := rows.ksaLinks[id := l.(modified := now)], plans := Stamp(rows.plans, p, now));
      assert PlanOfGoal(once, l.planGoal) == p;
      assert Stamp(once.plans, p, now) == Stamp(rows.plans, p, now);
      assert once.ksaLinks[id := l'.(modified := now)] == rows.ksaLinks[id := l'.(modified := now)];
    } else {
      assert once == rows.(courseLinks := rows.courseLinks[id := l.(modified := now)]);
      assert once.courseLinks[id := l'.(modified := now)] == rows.courseLinks[id := l'.(modified := now)];
    }
  }

  /** The columns after `setattr` of each validated field in turn. */
  function Overlay(d: Dict, changes: Dict): Dict
    decreases |changes|
  {
    if changes == [] then d
    else
      var last := changes[|changes| - 1];
      Set(Overlay(d, changes[..|changes| - 1]), last.key, last.value)
  }

  /** After the loop a column holds the validated value when the data names it,
      and its old value otherwise. */
  lemma {:induction false} OverlayGet(d: Dict, changes: Dict, k: string)
    requires UniqueKeys(changes)
    ensures Get(Overlay(d, changes), k) == if HasKey(changes, k) then Get(changes, k) else Get(d, k)
    decreases |changes|
  {
    if changes != [] {
      var n := |changes|;
      var front, last := changes[..n - 1], changes[n - 1];
      assert changes == front + [last];
      assert UniqueKeys(front);
      OverlayGet(d, front, k);
      GetAppend(front, last, k);
      if last.key == k {
        GetSetSame(Overlay(d, front), k, last.value);
        assert !HasKey(front, k);
      } else {
        GetSetOther(Overlay(d, front), last.key, last.value, k);
      }
    }
  }

  /** The `for attr, value in validated_data.items(): setattr(...)` loop over
      the free-form columns of a row. */
  method ApplyAttributes(columns: Dict, validated: Dict) returns (r: Dict)
    ensures r == Overlay(columns, validated)
  {
    r := columns;
    var i := 0;
    while i < |validated|
      invariant 0 <= i <= |validated|
      invariant r == Overlay(columns, validated[..i])
    {
      assert validated[..i + 1][..i] == validated[..i];
      r := Set(r, validated[i].key, validated[i].value);
      i := i + 1;
    }
    assert validated[..i] == validated;
  }

  /** The portal's database as far as learning plans go, with the id sequence
      all tables draw from; sequences are not rolled back by a transaction. */
  class PlanStore {
    var rows: Rows
    var nextId: nat

    ghost predicate Valid()
      reads this
    {
      Consistent(rows) && Below(rows, nextId)
    }

    constructor ()
      ensures Valid() && rows == Rows(map[], map[], map[], map[], map[]) && nextId == 1
    {
      rows := Rows(map[], map[], map[], map[], map[]);
      nextId := 1;
    }

    /** Draws the next primary key. */
    method NewId() returns (id: nat)
      requires Valid()
      modifies this
      ensures Valid() && rows == old(rows)
      ensures id == old(nextId) && nextId == id + 1
    {
      id := nextId;
      nextId := nextId + 1;
    }

    /** `LearningPlan.save`, which has no override. */
    method SavePlan(id: nat, p: Plan, now: DateTime)
      requires Valid() && id < nextId
      modifies this
      ensures Valid() && nextId == old(nextId)
      ensures rows == old(rows).(plans := old(rows).plans[id := p.(modified := now)])
    {
      rows := rows.(plans := rows.plans[id := p.(modified := now)]);
    }

    method SaveCompetency(id: nat, c: PlanCompetency, now: DateTime)
      requires Valid() && id < nextId && c.learningPlan in rows.plans
      modifies this
      ensures Valid() && nextId == old(nextId)
      ensures rows == WithCompetency(old(rows), id, c, now)
    {
      rows := WithCompetency(rows, id, c, now);
    }

    method SaveGoal(id: nat, g: Goal, now: DateTime)
      requires Valid() && id < nextId && g.planCompetency in rows.competencies && ValidDate(g.created.date)
      modifies this
      ensures Valid() && nextId == old(nextId)
      ensures rows == WithGoal(old(rows), id, g, now)
    {
      rows := WithGoal(rows, id, g, now);
    }

    method SaveLink(kind: LinkKind, id: nat, l: Link, now: DateTime)
      requires Valid() && id < nextId && l.planGoal in rows.goals
      modifies this
      ensures Valid() && nextId == old(nextId)
      ensures rows == WithLink(old(rows), kind, id, l, now)
    {
      rows := WithLink(rows, kind, id, l, now);
    }

    method DeleteGoal(id: nat)
      requires Valid()
      modifies this
      ensures Valid() && nextId == old(nextId)
      ensures rows == WithoutGoal(old(rows), id)
    {
      rows := WithoutGoal(rows, id);
    }

    method DeleteLink(kind: LinkKind, id: nat)
      requires Valid()
      modifies this
      ensures Valid() && nextId == old(nextId)
      ensures rows == WithoutLink(old(rows), kind, id)
    {
      rows := WithoutLink(rows, kind, id);
    }

    /** The rollback of `transaction.atomic`: every row goes back to the
        snapshot; the id sequence keeps its value. */
    method Restore(saved: Rows)
      requires Consistent(saved) && Below(saved, nextId)
      modifies this
      ensures Valid() && rows == saved && nextId == old(nextId)
    {
      rows := saved;
    }
  }
}
