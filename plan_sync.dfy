/** The create, update and delete flows of learning-plan goals and of their
    KSA and course links, as the serializers and view sets run them: the local
    rows are written inside `transaction.atomic` and then pushed to ELRR, and a
    failure on the remote side rolls the local write back; a delete asks ELRR
    first and deletes the local row only when that succeeded. */
module PlanSync {
  import opened Outcomes
  import opened JsonValues
  import opened Calendar
  import opened Remote
  import opened Elrr
  import opened ElrrClient
  import opened Catalog
  import opened LearningPlans
  import opened Xds

  const ElrrSyncError: string := "Failed to sync with ELRR, please check logs for details"
  const ParentIdUpdateError: string := "Cannot change the parent id"
  const CourseRemovalError: string := "Failed removing course from ELRR, check logs for more details"
  const KsaRemovalError: string := "Failed removing KSA from ELRR, check logs for more details"
  const GoalRemovalError: string := "Failed removing goal from ELRR, check logs for more details"

  /** `except (ConnectionError, ValueError): raise ValidationError(ELRR_SYNC_ERROR)`:
      the two ELRR client errors become the sync error; any other exception
      passes through unchanged. */
  function SyncFailure(e: Exc): (r: Exc)
    ensures ClientError(e) ==> r == ValidationError(ElrrSyncError) || r == Uncaught
    ensures r == Uncaught <==> e == Uncaught
  {
    if e == ConnectionError || e == ValueError then ValidationError(ElrrSyncError) else e
  }

  /** The update guard shared by every child serializer: a parent given in the
      data must be the one the row already has. */
  function ParentCheck(requested: Option<nat>, current: nat): (r: Result<bool>)
    ensures r.Ok? <==> requested.None? || requested.value == current
    ensures r.Err? ==> r.error == ValidationError(ParentIdUpdateError)
  {
    if requested.Some? && requested.value != current then Err(ValidationError(ParentIdUpdateError))
    else Ok(true)
  }

  function LearnerOf(rows: Rows, c: nat): Learner
    requires Consistent(rows) && c in rows.competencies
  {
    rows.plans[rows.competencies[c].learningPlan].learner
  }

  /** The remote half of a goal create for a script of ELRR replies: the
      person is looked up (created when missing), the goal document is built
      from the saved row and posted, and the id of the created goal is the
      result. */
  function RemoteGoalId(script: seq<Reply>, g: GoalView, learner: Learner): (r: Result<Json>)
    requires ValidGoalView(g)
    ensures r.Ok? ==> Truthy(r.value)
    ensures r.Err? ==> ClientError(r.error)
  {
    var (person, rest) := PersonResolved(script);
    match person
    case Err(e) => Err(e)
    case Ok(personId) =>
      match GoalData(g, personId)
      case Err(e) => Err(e)
      case Ok(_) =>
        match RecordCreated(Next(rest))
        case Err(e) => Err(e)
        case Ok(created) => Ok(Get(created, "id"))
  }

  /** `LearningPlanGoalSerializer.create`: the goal row is created, the goal
      is created in ELRR for the plan's learner, and its ELRR id is saved on
      the row. Either both sides have the goal or, after a rollback, neither
      has it; only the id sequence has moved on. */
  method CreatePlanGoal(store: PlanStore, elrr: Service, base: string, c: nat, goalName: string, timeline: int,
                        details: Dict, now: DateTime)
    returns (r: Result<nat>)
    requires store.Valid() && base != [] && c in store.rows.competencies && ValidDate(now.date)
    modifies store, elrr
    ensures store.Valid() && store.nextId == old(store.nextId) + 1
    ensures |elrr.sent| > |old(elrr.sent)|
      && elrr.sent[|old(elrr.sent)|] == PersonLookupRequest(base, LearnerOf(old(store.rows), c).email)
    ensures var id := old(store.nextId);
      match RemoteGoalId(old(elrr.script), GoalView(id, goalName, timeline, now), LearnerOf(old(store.rows), c))
      case Ok(elrrId) =>
        r == Ok(id) && store.rows == WithGoal(old(store.rows), id, Goal(c, goalName, timeline, details, now, now, elrrId), now)
      case Err(e) =>
        r == Err(SyncFailure(e)) && store.rows == old(store.rows)
  {
    ghost var script0, sent0 := elrr.script, elrr.sent;
    var saved := store.rows;
    var learner := LearnerOf(saved, c);
    var id := store.NewId();
    var goal := Goal(c, goalName, timeline, details, now, now, JNull);
    store.SaveGoal(id, goal, now);
    var view := GoalView(id, goalName, timeline, now);
    var person := GetOrCreatePerson(elrr, base, learner);
    assert elrr.sent[|sent0|] == PersonLookupRequest(base, learner.email);
    if person.Err? {
      store.Restore(saved);
      return Err(SyncFailure(person.error));
    }
    var data := GoalData(view, person.value);
    if data.Err? {
      store.Restore(saved);
      return Err(SyncFailure(data.error));
    }
    ghost var sent1 := elrr.sent;
    var created := CreateGoal(elrr, base, data.value);
    assert elrr.sent[..|sent1|] == sent1;
    if created.Err? {
      store.Restore(saved);
      return Err(SyncFailure(created.error));
    }
    var elrrId := Get(created.value, "id");
    WithGoalTwice(saved, id, goal, goal.(elrrGoalId := elrrId), now);
    store.SaveGoal(id, goal.(elrrGoalId := elrrId), now);
    r := Ok(id);
  }

  /** The validated data of a goal update: the fields that were sent. */
  datatype GoalChanges = GoalChanges(planCompetency: Option<nat>, goalName: Option<string>, timeline: Option<int>,
                                     details: Dict)

  /** The keys of `validated_data`, as `sync_goal_updates_to_elrr` sees them. */
  function UpdatedKeys(ch: GoalChanges): (ks: set<string>)
    ensures "goal_name" in ks <==> ch.goalName.Some?
    ensures "timeline" in ks <==> ch.timeline.Some?
  {
    (if ch.planCompetency.Some? then {"plan_competency"} else {})
    + (if ch.goalName.Some? then {"goal_name"} else {})
    + (if ch.timeline.Some? then {"timeline"} else {})
    + (set i | 0 <= i < |ch.details| && ch.details[i].key != "goal_name" && ch.details[i].key != "timeline"
               :: ch.details[i].key)
  }

  /** The row after the `setattr` loop over the validated data. */
  function Updated(g: Goal, ch: GoalChanges): (r: Goal)
    ensures r.planCompetency == g.planCompetency || ch.planCompetency == Some(r.planCompetency)
    ensures r.created == g.created && r.elrrGoalId == g.elrrGoalId
    ensures r.goalName == if ch.goalName.Some? then ch.goalName.value else g.goalName
    ensures r.timeline == if ch.timeline.Some? then ch.timeline.value else g.timeline
    ensures r.details == Overlay(g.details, ch.details)
  {
    g.(planCompetency := if ch.planCompetency.Some? then ch.planCompetency.value else g.planCompetency,
       goalName := if ch.goalName.Some? then ch.goalName.value else g.goalName,
       timeline := if ch.timeline.Some? then ch.timeline.value else g.timeline,
       details := Overlay(g.details, ch.details))
  }

  /** `LearningPlanGoalSerializer.update`: a change of competency is refused;
      otherwise the row is updated and, for a goal known to ELRR, the change is
      synced, a failed sync rolling the row back. A synced goal whose timeline
      is set to zero, on which the sync crashes, is excluded. */
  method UpdatePlanGoal(store: PlanStore, elrr: Service, base: string, id: nat, ch: GoalChanges, now: DateTime)
    returns (r: Result<nat>)
    requires store.Valid() && base != [] && id in store.rows.goals
    requires Truthy(store.rows.goals[id].elrrGoalId) && ch.timeline.Some? ==> ch.timeline.value != 0
    modifies store, elrr
    ensures store.Valid() && store.nextId == old(store.nextId)
    ensures var g := old(store.rows).goals[id];
      ParentCheck(ch.planCompetency, g.planCompetency).Err? ==>
        r == Err(ValidationError(ParentIdUpdateError)) && store.rows == old(store.rows)
        && elrr.sent == old(elrr.sent) && elrr.script == old(elrr.script)
    ensures var g := old(store.rows).goals[id];
      ParentCheck(ch.planCompetency, g.planCompetency).Ok? && (!Truthy(g.elrrGoalId) || (ch.goalName.None? && ch.timeline.None?)) ==>
        r == Ok(id) && store.rows == WithGoal(old(store.rows), id, Updated(g, ch), now)
        && elrr.sent == old(elrr.sent) && elrr.script == old(elrr.script)
    ensures var g := old(store.rows).goals[id];
      ParentCheck(ch.planCompetency, g.planCompetency).Ok? && Truthy(g.elrrGoalId) && (ch.goalName.Some? || ch.timeline.Some?) ==>
        |elrr.sent| > |old(elrr.sent)|
        && elrr.sent[|old(elrr.sent)|] == Request(GET, GoalUrl(base, IdText(g.elrrGoalId)), [], JNull)
    ensures r.Ok? ==> r.value == id && store.rows == WithGoal(old(store.rows), id, Updated(old(store.rows).goals[id], ch), now)
    ensures r.Err? ==> store.rows == old(store.rows)
    ensures r.Err? ==> r.error in {ValidationError(ParentIdUpdateError), ValidationError(ElrrSyncError), Uncaught}
  {
    var g := store.rows.goals[id];
    var parent := ParentCheck(ch.planCompetency, g.planCompetency);
    if parent.Err? {
      return Err(parent.error);
    }
    var saved := store.rows;
    var details := ApplyAttributes(g.details, ch.details);
    var updated := g.(goalName := if ch.goalName.Some? then ch.goalName.value else g.goalName,
                      timeline := if ch.timeline.Some? then ch.timeline.value else g.timeline,
                      details := details);
    assert updated == Updated(g, ch);
    store.SaveGoal(id, updated, now);
    if Truthy(updated.elrrGoalId) {
      var synced := SyncGoalUpdates(elrr, base, GoalView(id, updated.goalName, updated.timeline, updated.created),
                                    updated.elrrGoalId, UpdatedKeys(ch));
      if synced.Err? {
        store.Restore(saved);
        return Err(SyncFailure(synced.error));
      }
    }
    r := Ok(id);
  }

  /** `LearningPlanGoalViewSet.perform_destroy`: a goal known to ELRR is
      deleted there first; if that fails the local goal stays and an
      APIException is raised. The local delete cascades to the goal's links. */
  method DestroyPlanGoal(store: PlanStore, elrr: Service, base: string, id: nat) returns (r: Result<bool>)
    requires store.Valid() && base != [] && id in store.rows.goals
    modifies store, elrr
    ensures store.Valid() && store.nextId == old(store.nextId)
    ensures var g := old(store.rows).goals[id];
      !Truthy(g.elrrGoalId) ==> r == Ok(true) && elrr.sent == old(elrr.sent) && elrr.script == old(elrr.script)
    ensures var g := old(store.rows).goals[id];
      Truthy(g.elrrGoalId) ==>
        elrr.sent == old(elrr.sent) + [Request(DELETE, GoalUrl(base, IdText(g.elrrGoalId)), [], JNull)]
        && (r.Ok? <==> GoalRemoved(Next(old(elrr.script))).Ok?)
    ensures r.Ok? ==> store.rows == WithoutGoal(old(store.rows), id)
    ensures r.Err? ==> r.error == ApiException(GoalRemovalError) && store.rows == old(store.rows)
  {
    var g := store.rows.goals[id];
    if Truthy(g.elrrGoalId) {
      var removed := RemoveGoal(elrr, base, IdText(g.elrrGoalId));
      if removed.Err? {
        return Err(ApiException(GoalRemovalError));
      }
    }
    store.DeleteGoal(id);
    r := Ok(true);
  }

  function RemovalError(kind: LinkKind): string {
    if kind.KsaLink? then KsaRemovalError else CourseRemovalError
  }

  /** `LearningPlanGoalKsaViewSet.perform_destroy` and its course twin: when
      both the goal and the link are known to ELRR the link's id is taken out
      of the goal's array first; an ELRR error keeps the local row and raises
      an APIException, any other error passes through. */
  method DestroyGoalLink(store: PlanStore, elrr: Service, base: string, kind: LinkKind, id: nat)
    returns (r: Result<bool>)
    requires store.Valid() && base != [] && id in Links(store.rows, kind)
    modifies store, elrr
    ensures store.Valid() && store.nextId == old(store.nextId)
    ensures var l := Links(old(store.rows), kind)[id];
      var goalId := old(store.rows).goals[l.planGoal].elrrGoalId;
      !(Truthy(goalId) && Truthy(l.elrrId)) ==>
        r == Ok(true) && elrr.sent == old(elrr.sent) && elrr.script == old(elrr.script)
    ensures var l := Links(old(store.rows), kind)[id];
      var goalId := old(store.rows).goals[l.planGoal].elrrGoalId;
      Truthy(goalId) && Truthy(l.elrrId) ==>
        |elrr.sent| > |old(elrr.sent)|
        && elrr.sent[|old(elrr.sent)|] == Request(GET, GoalUrl(base, IdText(goalId)), [], JNull)
    ensures r.Ok? ==> store.rows == WithoutLink(old(store.rows), kind, id)
    ensures r.Err? ==> store.rows == old(store.rows)
    ensures r.Err? ==> r.error == ApiException(RemovalError(kind)) || r.error == Uncaught
  {
    var l := Links(store.rows, kind)[id];
    var goalId := store.rows.goals[l.planGoal].elrrGoalId;
    if Truthy(goalId) && Truthy(l.elrrId) {
      var removed, fetched := RemoveFromGoal(elrr, base, kind, JStr(IdText(goalId)), JStr(IdText(l.elrrId)));
      if removed.Err? {
        if removed.error == ConnectionError || removed.error == ValueError {
          return Err(ApiException(RemovalError(kind)));
        }
        return Err(removed.error);
      }
    }
    store.DeleteLink(kind, id);
    r := Ok(true);
  }

  // ---- catalog resolution for links and plan competencies ----

  /** The catalog table a link of this kind points into. */
  function CatalogRows(tables: Tables, kind: LinkKind): map<string, Entry>
    reads tables
  {
    if kind.KsaLink? then tables.ksas else tables.courses
  }

  function ResolveMessage(kind: LinkKind): string {
    if kind.KsaLink? then EccrExceptionMsg else XdsExceptionMsg
  }

  /** What an ECCR-backed resolution answers for the table's rows and the
      validator's answers: the stored name of a row already there, otherwise
      the name the validator gives, or the ECCR ValidationError when it
      raises or gives no name. */
  function EccrName(rows: map<string, Entry>, answers: seq<Result<Json>>, reference: string): (r: Result<string>)
    ensures reference in rows ==> r == Ok(rows[reference].name)
    ensures r.Err? ==> r.error == ValidationError(EccrExceptionMsg)
    ensures reference !in rows && answers == [] ==> r.Err?
  {
    if reference in rows then Ok(rows[reference].name)
    else Admitted(if answers == [] then Err(ConnectionError) else answers[0], EccrExceptionMsg)
  }

  /** What the catalog resolution of a link answers, for the catalog rows,
      the XDS replies and the ECCR validator's answers it meets: the stored
      name of a row already in the catalog, otherwise the name the service
      gives (XDS for a course, the ECCR validator for a KSA), or the
      serializer's ValidationError when that fails or gives no name. */
  function CatalogName(rows: map<string, Entry>, xdsScript: seq<Reply>, answers: seq<Result<Json>>, kind: LinkKind,
                       reference: string): (r: Result<string>)
    ensures reference in rows ==> r == Ok(rows[reference].name)
    ensures r.Err? ==> r.error == ValidationError(ResolveMessage(kind))
    ensures kind.CourseLink? && reference !in rows && xdsScript == [] ==> r.Err?
  {
    if kind.KsaLink? then EccrName(rows, answers, reference)
    else if reference in rows then Ok(rows[reference].name)
    else Admitted(ValidateXdsCourse(Next(xdsScript)), XdsExceptionMsg)
  }

  /** `_get_or_create_ksa` / `_get_or_create_course`, answering with the name
      of the resolved catalog row, which the ELRR store sends along. A row
      already in the catalog is reused without asking anyone; a new row is
      added only when the service named the item. */
  method ResolveLinkItem(tables: Tables, xds: Service, validator: EccrValidator, xdsBase: string, kind: LinkKind,
                         reference: string, stamp: int)
    returns (r: Result<string>)
    requires xdsBase != []
    modifies tables, xds, validator
    ensures r == CatalogName(old(CatalogRows(tables, kind)), old(xds.script), old(validator.answers), kind, reference)
    ensures tables.competencies == old(tables.competencies) && tables.jobs == old(tables.jobs)
    ensures kind.KsaLink? ==> tables.courses == old(tables.courses) && xds.sent == old(xds.sent) && xds.script == old(xds.script)
    ensures kind.CourseLink? ==>
      tables.ksas == old(tables.ksas) && validator.asked == old(validator.asked) && validator.answers == old(validator.answers)
    ensures reference in old(CatalogRows(tables, kind)) ==>
      CatalogRows(tables, kind) == old(CatalogRows(tables, kind))
      && xds.sent == old(xds.sent) && xds.script == old(xds.script) && validator.asked == old(validator.asked)
    ensures r.Ok? ==> reference in CatalogRows(tables, kind)
    ensures r.Ok? ==> CatalogRows(tables, kind) == old(CatalogRows(tables, kind))[reference := Entry(r.value, CatalogRows(tables, kind)[reference].modified)]
    ensures r.Err? ==> CatalogRows(tables, kind) == old(CatalogRows(tables, kind))
  {
    var resolved;
    if kind.KsaLink? {
      resolved := tables.ResolveEccrItem(validator, KsaTable, reference, stamp);
    } else {
      resolved := tables.ResolveCourse(xds, xdsBase, reference, stamp);
    }
    if resolved.Err? {
      return Err(resolved.error);
    }
    r := Ok(CatalogRows(tables, kind)[reference].name);
  }

  // ---- goal links ----

  /** The rows after the atomic block of a link create or update: on success
      the link is saved with the ELRR id `elrrId` it ended up with; on failure
      everything is rolled back and the error is the sync error or an uncaught
      one. */
  ghost predicate LinkSaved(rows0: Rows, rows: Rows, kind: LinkKind, id: nat, l: Link, now: DateTime,
                            r: Result<nat>, elrrId: Json)
    requires Consistent(rows0) && l.planGoal in rows0.goals
  {
    match r
    case Ok(v) => v == id && rows == WithLink(rows0, kind, id, l.(elrrId := elrrId), now)
    case Err(e) => rows == rows0 && (e == ValidationError(ElrrSyncError) || e == Uncaught)
  }

  /** The atomic block of a link create: the row is created without an ELRR
      id; when the goal is known to ELRR the item is stored to the goal (no
      old id to drop) and the returned id saved on the row. */
  method SaveNewLink(store: PlanStore, elrr: Service, elrrBase: string, eccrBase: string, kind: LinkKind,
                     l: Link, name: string, now: DateTime)
    returns (r: Result<nat>, ghost elrrId: Json, ghost fetched: Dict)
    requires store.Valid() && l.planGoal in store.rows.goals && l.elrrId == JNull
    requires elrrBase != [] && (kind.KsaLink? ==> eccrBase != [])
    modifies store, elrr
    ensures store.Valid() && store.nextId == old(store.nextId) + 1
    ensures LinkSaved(old(store.rows), store.rows, kind, old(store.nextId), l, now, r, elrrId)
    ensures var goalElrrId := old(store.rows).goals[l.planGoal].elrrGoalId;
      !Truthy(goalElrrId) ==>
        r.Ok? && elrrId == JNull && elrr.sent == old(elrr.sent) && elrr.script == old(elrr.script)
    ensures var goalElrrId := old(store.rows).goals[l.planGoal].elrrGoalId;
      Truthy(goalElrrId) ==>
        |elrr.sent| > |old(elrr.sent)| && elrr.sent[|old(elrr.sent)|] == LookupRequest(elrrBase, kind, l.item)
    ensures var goalElrrId := old(store.rows).goals[l.planGoal].elrrGoalId;
      Truthy(goalElrrId) && r.Ok? ==>
        Truthy(elrrId) && StoredLast(elrr.sent, elrrBase, fetched, kind, JNull, elrrId)
  {
    fetched, elrrId := [], JNull;
    var saved := store.rows;
    var id := store.NewId();
    store.SaveLink(kind, id, l, now);
    var goalElrrId := store.rows.goals[l.planGoal].elrrGoalId;
    if !Truthy(goalElrrId) {
      return Ok(id), elrrId, fetched;
    }
    var stored;
    stored, fetched := StoreToGoal(elrr, elrrBase, eccrBase, kind, l.item, name, JStr(IdText(goalElrrId)), JNull);
    if stored.Err? {
      store.Restore(saved);
      return Err(SyncFailure(stored.error)), elrrId, fetched;
    }
    elrrId := stored.value;
    ghost var sent1 := elrr.sent;
    WithLinkTwice(saved, kind, id, l, l.(elrrId := stored.value), now);
    store.SaveLink(kind, id, l.(elrrId := stored.value), now);
    assert elrr.sent == sent1;
    r := Ok(id);
  }

  /** `LearningPlanGoalKsaSerializer.create` / `LearningPlanGoalCourseSerializer.create`:
      the item is resolved in the catalog first (outside the transaction, so a
      new catalog row survives a later rollback); a failed resolution creates
      nothing. Then the atomic block runs. */
  method CreateGoalLink(store: PlanStore, tables: Tables, xds: Service, validator: EccrValidator, elrr: Service,
                        xdsBase: string, eccrBase: string, elrrBase: string, kind: LinkKind,
                        goalId: nat, reference: string, attrs: Dict, stamp: int, now: DateTime)
    returns (r: Result<nat>, ghost elrrId: Json, ghost fetched: Dict)
    requires store.Valid() && goalId in store.rows.goals
    requires xdsBase != [] && elrrBase != [] && (kind.KsaLink? ==> eccrBase != []) && xds != elrr
    modifies store, tables, xds, validator, elrr
    ensures store.Valid()
    ensures var name := CatalogName(old(CatalogRows(tables, kind)), old(xds.script), old(validator.answers), kind, reference);
      name.Err? ==>
        r == Err(name.error) && store.rows == old(store.rows) && store.nextId == old(store.nextId)
        && elrr.sent == old(elrr.sent) && elrr.script == old(elrr.script)
    ensures var name := CatalogName(old(CatalogRows(tables, kind)), old(xds.script), old(validator.answers), kind, reference);
      var goalElrrId := old(store.rows).goals[goalId].elrrGoalId;
      name.Ok? ==>
        store.nextId == old(store.nextId) + 1
        && LinkSaved(old(store.rows), store.rows, kind, old(store.nextId), Link(goalId, reference, attrs, now, JNull), now, r, elrrId)
        && (!Truthy(goalElrrId) ==> r.Ok? && elrrId == JNull && elrr.sent == old(elrr.sent) && elrr.script == old(elrr.script))
        && (Truthy(goalElrrId) ==> |elrr.sent| > |old(elrr.sent)| && elrr.sent[|old(elrr.sent)|] == LookupRequest(elrrBase, kind, reference))
        && (Truthy(goalElrrId) && r.Ok? ==> Truthy(elrrId) && StoredLast(elrr.sent, elrrBase, fetched, kind, JNull, elrrId))
  {
    fetched, elrrId := [], JNull;
    var name := ResolveLinkItem(tables, xds, validator, xdsBase, kind, reference, stamp);
    if name.Err? {
      return Err(name.error), elrrId, fetched;
    }
    r, elrrId, fetched := SaveNewLink(store, elrr, elrrBase, eccrBase, kind, Link(goalId, reference, attrs, now, JNull),
                                      name.value, now);
  }

  /** The link after the `setattr` loop: the resolved item when a reference
      was given, and the validated columns laid over the old ones. */
  function Edited(l: Link, reference: Option<string>, attrs: Dict): (r: Link)
    ensures r.planGoal == l.planGoal && r.elrrId == l.elrrId
    ensures reference.Some? ==> r.item == reference.value
    ensures reference.None? ==> r.item == l.item
  {
    l.(item := if reference.Some? then reference.value else l.item, attrs := Overlay(l.attrs, attrs))
  }

  /** The atomic block of a link update: the row is saved; when the item
      changed and the goal is known to ELRR the new item is stored to the goal
      with the old ELRR id (as `str()` makes it) to drop, and the returned id
      is saved on the row. */
  method SaveEditedLink(store: PlanStore, elrr: Service, elrrBase: string, eccrBase: string, kind: LinkKind,
                        id: nat, l: Link, name: string, changed: bool, now: DateTime)
    returns (r: Result<nat>, ghost elrrId: Json, ghost fetched: Dict)
    requires store.Valid() && id in Links(store.rows, kind) && l.planGoal == Links(store.rows, kind)[id].planGoal
    requires elrrBase != [] && (kind.KsaLink? ==> eccrBase != [])
    modifies store, elrr
    ensures store.Valid() && store.nextId == old(store.nextId)
    ensures LinkSaved(old(store.rows), store.rows, kind, id, l, now, r, elrrId)
    ensures var goalElrrId := old(store.rows).goals[l.planGoal].elrrGoalId;
      !(changed && Truthy(goalElrrId)) ==>
        r.Ok? && elrrId == l.elrrId && elrr.sent == old(elrr.sent) && elrr.script == old(elrr.script)
    ensures var goalElrrId := old(store.rows).goals[l.planGoal].elrrGoalId;
      changed && Truthy(goalElrrId) ==>
        |elrr.sent| > |old(elrr.sent)| && elrr.sent[|old(elrr.sent)|] == LookupRequest(elrrBase, kind, l.item)
    ensures var goalElrrId := old(store.rows).goals[l.planGoal].elrrGoalId;
      changed && Truthy(goalElrrId) && r.Ok? ==>
        Truthy(elrrId) && StoredLast(elrr.sent, elrrBase, fetched, kind, JStr(IdText(l.elrrId)), elrrId)
  {
    fetched, elrrId := [], l.elrrId;
    var saved := store.rows;
    store.SaveLink(kind, id, l, now);
    var goalElrrId := store.rows.goals[l.planGoal].elrrGoalId;
    if !(changed && Truthy(goalElrrId)) {
      return Ok(id), elrrId, fetched;
    }
    var stored;
    stored, fetched := StoreToGoal(elrr, elrrBase, eccrBase, kind, l.item, name, JStr(IdText(goalElrrId)),
                                   JStr(IdText(l.elrrId)));
    if stored.Err? {
      store.Restore(saved);
      return Err(SyncFailure(stored.error)), elrrId, fetched;
    }
    elrrId := stored.value;
    ghost var sent1 := elrr.sent;
    WithLinkTwice(saved, kind, id, l, l.(elrrId := stored.value), now);
    store.SaveLink(kind, id, l.(elrrId := stored.value), now);
    assert elrr.sent == sent1;
    r := Ok(id);
  }

  /** `LearningPlanGoalKsaSerializer.update` / `LearningPlanGoalCourseSerializer.update`:
      a change of goal is refused; a given reference is resolved in the
      catalog; the row is saved and, only when the item changed and the goal
      is known to ELRR, the new item is stored to the goal. */
  method UpdateGoalLink(store: PlanStore, tables: Tables, xds: Service, validator: EccrValidator, elrr: Service,
                        xdsBase: string, eccrBase: string, elrrBase: string, kind: LinkKind,
                        id: nat, newGoal: Option<nat>, reference: Option<string>, attrs: Dict, stamp: int, now: DateTime)
    returns (r: Result<nat>, ghost elrrId: Json, ghost fetched: Dict)
    requires store.Valid() && id in Links(store.rows, kind)
    requires xdsBase != [] && elrrBase != [] && (kind.KsaLink? ==> eccrBase != []) && xds != elrr
    modifies store, tables, xds, validator, elrr
    ensures store.Valid() && store.nextId == old(store.nextId)
    ensures var l := Links(old(store.rows), kind)[id];
      ParentCheck(newGoal, l.planGoal).Err? ==>
        r == Err(ValidationError(ParentIdUpdateError)) && store.rows == old(store.rows)
        && elrr.sent == old(elrr.sent) && xds.sent == old(xds.sent) && validator.asked == old(validator.asked)
    ensures var l := Links(old(store.rows), kind)[id];
      ParentCheck(newGoal, l.planGoal).Ok? && reference.Some? ==>
        var name := CatalogName(old(CatalogRows(tables, kind)), old(xds.script), old(validator.answers), kind, reference.value);
        name.Err? ==> r == Err(name.error) && store.rows == old(store.rows) && elrr.sent == old(elrr.sent)
    ensures var l := Links(old(store.rows), kind)[id];
      var goalElrrId := old(store.rows).goals[l.planGoal].elrrGoalId;
      r.Ok? ==>
        r.value == id && store.rows == WithLink(old(store.rows), kind, id, Edited(l, reference, attrs).(elrrId := elrrId), now)
        && (reference.None? || reference.value == l.item || !Truthy(goalElrrId) ==>
              elrrId == l.elrrId && elrr.sent == old(elrr.sent) && elrr.script == old(elrr.script))
        && (reference.Some? && reference.value != l.item && Truthy(goalElrrId) ==>
              Truthy(elrrId) && StoredLast(elrr.sent, elrrBase, fetched, kind, JStr(IdText(l.elrrId)), elrrId))
    ensures r.Err? ==> store.rows == old(store.rows)
  {
    fetched, elrrId := [], JNull;
    var l := Links(store.rows, kind)[id];
    var parent := ParentCheck(newGoal, l.planGoal);
    if parent.Err? {
      return Err(parent.error), elrrId, fetched;
    }
    var name := "";
    var changed := false;
    if reference.Some? {
      var resolved := ResolveLinkItem(tables, xds, validator, xdsBase, kind, reference.value, stamp);
      if resolved.Err? {
        return Err(resolved.error), elrrId, fetched;
      }
      name := resolved.value;
      changed := l.item != reference.value;
    }
    r, elrrId, fetched := SaveEditedLink(store, elrr, elrrBase, eccrBase, kind, id, Edited(l, reference, attrs), name,
                                         changed, now);
  }

  // ---- plan competencies ----

  /** `LearningPlanCompetencySerializer.create`: the competency is resolved
      in the ECCR-backed catalog, then the row is created; there is no
      transaction and no ELRR call. */
  method CreatePlanCompetency(store: PlanStore, tables: Tables, validator: EccrValidator, planId: nat, reference: string,
                              priority: string, stamp: int, now: DateTime)
    returns (r: Result<nat>)
    requires store.Valid() && planId in store.rows.plans
    modifies store, tables, validator
    ensures store.Valid()
    ensures tables.courses == old(tables.courses) && tables.ksas == old(tables.ksas) && tables.jobs == old(tables.jobs)
    ensures var name := EccrName(old(tables.competencies), old(validator.answers), reference);
      name.Err? ==> r == Err(name.error) && store.rows == old(store.rows) && store.nextId == old(store.nextId)
    ensures var name := EccrName(old(tables.competencies), old(validator.answers), reference);
      name.Ok? ==>
        r == Ok(old(store.nextId)) && store.nextId == old(store.nextId) + 1
        && store.rows == WithCompetency(old(store.rows), old(store.nextId), PlanCompetency(planId, reference, priority, now), now)
        && reference in tables.competencies && tables.competencies[reference].name == name.value
  {
    var resolved := tables.ResolveEccrItem(validator, CompetencyTable, reference, stamp);
    if resolved.Err? {
      return Err(resolved.error);
    }
    var id := store.NewId();
    store.SaveCompetency(id, PlanCompetency(planId, reference, priority, now), now);
    r := Ok(id);
  }

  /** `LearningPlanCompetencySerializer.update`: a change of plan is refused,
      a given reference is resolved, then the fields are set and the row
      saved. */
  method UpdatePlanCompetency(store: PlanStore, tables: Tables, validator: EccrValidator, id: nat, newPlan: Option<nat>,
                              reference: Option<string>, priority: Option<string>, stamp: int, now: DateTime)
    returns (r: Result<nat>)
    requires store.Valid() && id in store.rows.competencies
    modifies store, tables, validator
    ensures store.Valid() && store.nextId == old(store.nextId)
    ensures var c := old(store.rows).competencies[id];
      ParentCheck(newPlan, c.learningPlan).Err? ==>
        r == Err(ValidationError(ParentIdUpdateError)) && store.rows == old(store.rows) && validator.asked == old(validator.asked)
    ensures var c := old(store.rows).competencies[id];
      ParentCheck(newPlan, c.learningPlan).Ok? && reference.Some?
      && EccrName(old(tables.competencies), old(validator.answers), reference.value).Err? ==>
        r == Err(ValidationError(EccrExceptionMsg)) && store.rows == old(store.rows)
    ensures var c := old(store.rows).competencies[id];
      r.Ok? ==>
        r.value == id && (reference.Some? ==> reference.value in tables.competencies)
        && store.rows == WithCompetency(old(store.rows), id,
             c.(competency := if reference.Some? then reference.value else c.competency,
                priority := if priority.Some? then priority.value else c.priority), now)
    ensures r.Err? ==> store.rows == old(store.rows)
  {
    var c := store.rows.competencies[id];
    var parent := ParentCheck(newPlan, c.learningPlan);
    if parent.Err? {
      return Err(parent.error);
    }
    var competency := c.competency;
    if reference.Some? {
      var resolved := tables.ResolveEccrItem(validator, CompetencyTable, reference.value, stamp);
      if resolved.Err? {
        return Err(resolved.error);
      }
      competency := reference.value;
    }
    var updated := c.(competency := competency, priority := if priority.Some? then priority.value else c.priority);
    store.SaveCompetency(id, updated, now);
    r := Ok(id);
  }
}
