/** The ELRR client functions that talk to the service: each request goes
    through a `Remote.Service`, and each method states which requests it sent
    and what it made of the replies. The base URL and token are parameters. */
module ElrrClient {
  import opened Outcomes
  import opened JsonValues
  import opened ApiUrls
  import opened Remote
  import opened Elrr

  /** `get_elrr_api_url() + path` */
  function ElrrUrl(base: string, path: string): string
    requires base != []
  {
    ApiBase(base) + path
  }

  function GoalUrl(base: string, goalId: string): string
    requires base != []
  {
    ElrrUrl(base, "goal/" + goalId)
  }

  function PersonLookupRequest(base: string, email: string): Request
    requires base != []
  {
    Request(GET, ElrrUrl(base, "person"), [Field("emailAddress", JStr(email))], JNull)
  }

  datatype Learner = Learner(firstName: string, lastName: string, email: string)

  function PersonCreateRequest(base: string, learner: Learner): Request
    requires base != []
  {
    Request(POST, ElrrUrl(base, "person"), [], JObj(PersonPayload(learner.firstName, learner.lastName, learner.email)))
  }

  /** `get_elrr_person_id_by_email` */
  method GetPersonIdByEmail(svc: Service, base: string, email: string) returns (r: Result<Option<Json>>)
    requires base != []
    modifies svc
    ensures svc.sent == old(svc.sent) + [PersonLookupRequest(base, email)]
    ensures svc.script == Rest(old(svc.script))
    ensures r == PersonLookup(Next(old(svc.script)))
  {
    var reply := svc.Exchange(PersonLookupRequest(base, email));
    r := PersonLookup(reply);
  }

  /** `create_elrr_person` */
  method CreatePerson(svc: Service, base: string, learner: Learner) returns (r: Result<Json>)
    requires base != []
    modifies svc
    ensures svc.sent == old(svc.sent) + [PersonCreateRequest(base, learner)]
    ensures svc.script == Rest(old(svc.script))
    ensures r == PersonCreated(Next(old(svc.script)))
  {
    var reply := svc.Exchange(PersonCreateRequest(base, learner));
    r := PersonCreated(reply);
  }

  /** The id `get_or_create_elrr_person_by_email` settles on for a script of
      replies, and the replies it leaves unread: the looked-up id when there is
      one, the created person's id when the lookup found nobody. */
  function PersonResolved(script: seq<Reply>): (r: (Result<Json>, seq<Reply>))
    ensures r.0.Ok? ==> Truthy(r.0.value)
    ensures r.0.Err? ==> ClientError(r.0.error)
  {
    match PersonLookup(Next(script))
    case Err(e) => (Err(e), Rest(script))
    case Ok(Some(id)) => (Ok(id), Rest(script))
    case Ok(None) => (PersonCreated(Next(Rest(script))), Rest(Rest(script)))
  }

  /** `get_or_create_elrr_person_by_email`: the create request is sent only
      when the lookup succeeded without finding anyone. */
  method GetOrCreatePerson(svc: Service, base: string, learner: Learner) returns (r: Result<Json>)
    requires base != []
    modifies svc
    ensures var lookup := PersonLookup(Next(old(svc.script)));
      match lookup
      case Err(e) => r == Err(e) && svc.sent == old(svc.sent) + [PersonLookupRequest(base, learner.email)]
      case Ok(Some(id)) => r == Ok(id) && svc.sent == old(svc.sent) + [PersonLookupRequest(base, learner.email)]
      case Ok(None) =>
        svc.sent == old(svc.sent) + [PersonLookupRequest(base, learner.email), PersonCreateRequest(base, learner)]
        && r == PersonCreated(Next(Rest(old(svc.script))))
    ensures (r, svc.script) == PersonResolved(old(svc.script))
  {
    var found := GetPersonIdByEmail(svc, base, learner.email);
    if found.Err? {
      return Err(found.error);
    }
    if found.value.Some? && Truthy(found.value.value) {
      return Ok(found.value.value);
    }
    r := CreatePerson(svc, base, learner);
  }

  /** `get_elrr_goal` */
  method GetGoal(svc: Service, base: string, goalId: string) returns (r: Result<Dict>)
    requires base != []
    modifies svc
    ensures svc.sent == old(svc.sent) + [Request(GET, GoalUrl(base, goalId), [], JNull)]
    ensures svc.script == Rest(old(svc.script))
    ensures r == GoalFetched(Next(old(svc.script)))
  {
    var reply := svc.Exchange(Request(GET, GoalUrl(base, goalId), [], JNull));
    r := GoalFetched(reply);
  }

  /** `create_elrr_goal` */
  method CreateGoal(svc: Service, base: string, data: Dict) returns (r: Result<Dict>)
    requires base != []
    modifies svc
    ensures svc.sent == old(svc.sent) + [Request(POST, ElrrUrl(base, "goal"), [], JObj(data))]
    ensures svc.script == Rest(old(svc.script))
    ensures r == RecordCreated(Next(old(svc.script)))
  {
    var reply := svc.Exchange(Request(POST, ElrrUrl(base, "goal"), [], JObj(data)));
    r := RecordCreated(reply);
  }

  /** `update_elrr_goal`: a document without a truthy id is refused before any
      request; otherwise it is PUT to the goal's URL. */
  method UpdateGoal(svc: Service, base: string, data: Dict) returns (r: Result<Dict>)
    requires base != []
    modifies svc
    ensures !Filled(data, "id") ==> r == Err(ValueError) && svc.sent == old(svc.sent) && svc.script == old(svc.script)
    ensures Filled(data, "id") ==>
      svc.sent == old(svc.sent) + [Request(PUT, GoalUrl(base, IdText(Get(data, "id"))), [], JObj(data))]
      && svc.script == Rest(old(svc.script))
      && r == GoalUpdated(Next(old(svc.script)))
  {
    var goalId := Get(data, "id");
    if !Truthy(goalId) {
      return Err(ValueError);
    }
    var reply := svc.Exchange(Request(PUT, GoalUrl(base, IdText(goalId)), [], JObj(data)));
    r := GoalUpdated(reply);
  }

  /** `remove_goal_from_elrr` */
  method RemoveGoal(svc: Service, base: string, goalId: string) returns (r: Result<bool>)
    requires base != []
    modifies svc
    ensures svc.sent == old(svc.sent) + [Request(DELETE, GoalUrl(base, goalId), [], JNull)]
    ensures svc.script == Rest(old(svc.script))
    ensures r == GoalRemoved(Next(old(svc.script)))
  {
    var reply := svc.Exchange(Request(DELETE, GoalUrl(base, goalId), [], JNull));
    r := GoalRemoved(reply);
  }

  /** `sync_goal_updates_to_elrr`: nothing is sent unless the name or the
      timeline changed; otherwise the goal is fetched, the changed fields are
      overwritten, and the whole document is written back. The result says
      whether a write-back happened. A timeline updated to zero, on which the
      source calls `isoformat()` on None, is excluded. */
  method SyncGoalUpdates(svc: Service, base: string, g: GoalView, elrrGoalId: Json, updated: set<string>)
    returns (r: Result<bool>)
    requires base != [] && ValidGoalView(g)
    requires "timeline" in updated ==> g.timeline != 0
    modifies svc
    ensures "goal_name" !in updated && "timeline" !in updated ==>
      r == Ok(false) && svc.sent == old(svc.sent) && svc.script == old(svc.script)
    ensures ("goal_name" in updated || "timeline" in updated) ==>
      |svc.sent| > |old(svc.sent)| && svc.sent[|old(svc.sent)|] == Request(GET, GoalUrl(base, IdText(elrrGoalId)), [], JNull)
    ensures ("goal_name" in updated || "timeline" in updated) && GoalFetched(Next(old(svc.script))).Ok? ==>
      var doc := GoalFetched(Next(old(svc.script))).value;
      match SyncedDocument(doc, g, updated)
      case Err(e) => r == Err(e) && |svc.sent| == |old(svc.sent)| + 1
      case Ok(synced) =>
        |svc.sent| == |old(svc.sent)| + 2
        && svc.sent[|old(svc.sent)| + 1] == Request(PUT, GoalUrl(base, IdText(Get(doc, "id"))), [], JObj(synced))
        && (r.Ok? <==> GoalUpdated(Next(Rest(old(svc.script)))).Ok?)
    ensures r.Err? ==> ClientError(r.error)
  {
    if "goal_name" !in updated && "timeline" !in updated {
      return Ok(false);
    }
    ghost var sent0, script0 := svc.sent, svc.script;
    var getRequest := Request(GET, GoalUrl(base, IdText(elrrGoalId)), [], JNull);
    var fetched := GetGoal(svc, base, IdText(elrrGoalId));
    assert svc.sent == sent0 + [getRequest];
    if fetched.Err? {
      return Err(fetched.error);
    }
    var doc := fetched.value;
    var synced := SyncedDocument(doc, g, updated);
    if synced.Err? {
      return Err(synced.error);
    }
    SyncKeepsOtherFields(doc, g, updated, "id");
    assert Filled(synced.value, "id");
    ghost var sent1 := svc.sent;
    var written := UpdateGoal(svc, base, synced.value);
    assert svc.sent == sent1 + [Request(PUT, GoalUrl(base, IdText(Get(doc, "id"))), [], JObj(synced.value))];
    assert svc.sent[|sent0|] == getRequest;
    if written.Err? {
      return Err(written.error);
    }
    r := Ok(true);
  }

  function LookupRequest(base: string, kind: LinkKind, reference: string): Request
    requires base != []
  {
    Request(GET, ElrrUrl(base, Endpoint(kind)), [Field(LookupParam(kind), JStr(reference))], JNull)
  }

  function ResourceCreateRequest(base: string, eccrBase: string, kind: LinkKind, reference: string, name: string): Request
    requires base != [] && (kind.KsaLink? ==> eccrBase != [])
  {
    Request(POST, ElrrUrl(base, Endpoint(kind)), [], JObj(ResourcePayload(kind, eccrBase, reference, name)))
  }

  /** The requests a get-or-create sends and what it answers: the lookup
      alone when it settles the matter, the lookup and then the create
      otherwise. */
  ghost predicate ResourceExchanged(script: seq<Reply>, sent0: seq<Request>, sent: seq<Request>, r: Result<Dict>,
                                    base: string, eccrBase: string, kind: LinkKind, reference: string, name: string)
    requires base != [] && (kind.KsaLink? ==> eccrBase != [])
  {
    match LookupSettled(Next(script))
    case Some(outcome) =>
      r == outcome && sent == sent0 + [LookupRequest(base, kind, reference)]
    case None =>
      r == RecordCreated(Next(Rest(script)))
      && sent == sent0 + [LookupRequest(base, kind, reference), ResourceCreateRequest(base, eccrBase, kind, reference, name)]
  }

  /** `get_or_create_elrr_competency` / `get_or_create_elrr_learning_resource`:
      look the record up by reference; create it only when the lookup settled
      nothing. */
  method GetOrCreateResource(svc: Service, base: string, eccrBase: string, kind: LinkKind, reference: string, name: string)
    returns (r: Result<Dict>)
    requires base != [] && (kind.KsaLink? ==> eccrBase != [])
    modifies svc
    ensures ResourceExchanged(old(svc.script), old(svc.sent), svc.sent, r, base, eccrBase, kind, reference, name)
    ensures r.Ok? ==> Filled(r.value, "id")
    ensures r.Err? ==> ClientError(r.error)
    ensures |svc.sent| > |old(svc.sent)| && svc.sent[..|old(svc.sent)|] == old(svc.sent)
    ensures svc.sent[|old(svc.sent)|] == LookupRequest(base, kind, reference)
  {
    var reply := svc.Exchange(LookupRequest(base, kind, reference));
    var settled := LookupSettled(reply);
    if settled.Some? {
      return settled.value;
    }
    var created := svc.Exchange(ResourceCreateRequest(base, eccrBase, kind, reference, name));
    r := RecordCreated(created);
  }

  /** `goal_data[key] = ids` followed by `update_elrr_goal(goal_data)` on a
      fetched (hence validated) goal document. */
  method WriteBackIds(svc: Service, base: string, goal: Dict, kind: LinkKind, ids: Json) returns (r: Result<Dict>)
    requires base != [] && Filled(goal, "id")
    modifies svc
    ensures svc.sent == old(svc.sent) + [Request(PUT, GoalUrl(base, IdText(Get(goal, "id"))), [],
                                                 JObj(Set(goal, ArrayKey(kind), ids)))]
    ensures svc.script == Rest(old(svc.script))
    ensures r == GoalUpdated(Next(old(svc.script)))
  {
    var doc := Set(goal, ArrayKey(kind), ids);
    GetSetOther(goal, ArrayKey(kind), ids, "id");
    r := UpdateGoal(svc, base, doc);
  }

  /** The last request sent is the write-back of the fetched goal with the
      value under the link kind's key as a store leaves it: on a list,
      `oldId` dropped and `newId` added. */
  ghost predicate StoredLast(sent: seq<Request>, base: string, fetched: Dict, kind: LinkKind, oldId: Json, newId: Json)
    requires base != []
  {
    StoredIds(IdValue(fetched, kind), oldId, newId).Ok? && |sent| > 0
    && sent[|sent| - 1] == Request(PUT, GoalUrl(base, IdText(Get(fetched, "id"))), [],
                                   JObj(Set(fetched, ArrayKey(kind), StoredIds(IdValue(fetched, kind), oldId, newId).value)))
  }

  /** The second half of a store: fetch the goal, reconcile the value under
      the link kind's key (`StoredIds`) and write the goal back. A value on
      which Python's `in` raises ends the store with that error. */
  method ReconcileGoal(svc: Service, base: string, kind: LinkKind, elrrGoalId: Json, oldId: Json, newId: Json)
    returns (r: Result<bool>, ghost fetched: Dict)
    requires base != []
    modifies svc
    ensures |svc.sent| > |old(svc.sent)| && svc.sent[..|old(svc.sent)|] == old(svc.sent)
    ensures svc.sent[|old(svc.sent)|] == Request(GET, GoalUrl(base, IdText(elrrGoalId)), [], JNull)
    ensures r.Err? ==> ClientError(r.error)
    ensures r.Ok? ==> StoredLast(svc.sent, base, fetched, kind, oldId, newId)
  {
    fetched := [];
    var goal := GetGoal(svc, base, IdText(elrrGoalId));
    if goal.Err? {
      return Err(goal.error), fetched;
    }
    var current := goal.value;
    fetched := current;
    var stored := StoredIds(IdValue(current, kind), oldId, newId);
    if stored.Err? {
      return Err(stored.error), fetched;
    }
    ghost var sent1 := svc.sent;
    var written := WriteBackIds(svc, base, current, kind, stored.value);
    assert svc.sent[..|sent1|] == sent1;
    if written.Err? {
      return Err(written.error), fetched;
    }
    r := Ok(true);
  }

  /** `store_ksa_to_elrr_goal` / `store_course_to_elrr_goal`: resolve the
      remote record, fetch the goal, reconcile the value under the link kind's
      key (on a list: drop the old id, add the new one) and write the goal back; the record's id is returned.
      Errors from any step propagate unchanged. */
  method StoreToGoal(svc: Service, base: string, eccrBase: string, kind: LinkKind, reference: string, name: string,
                     elrrGoalId: Json, oldId: Json)
    returns (r: Result<Json>, ghost fetched: Dict)
    requires base != [] && (kind.KsaLink? ==> eccrBase != [])
    modifies svc
    ensures |svc.sent| > |old(svc.sent)| && svc.sent[..|old(svc.sent)|] == old(svc.sent)
    ensures svc.sent[|old(svc.sent)|] == LookupRequest(base, kind, reference)
    ensures r.Err? ==> ClientError(r.error)
    ensures r.Ok? ==> Truthy(r.value) && StoredLast(svc.sent, base, fetched, kind, oldId, r.value)
  {
    fetched := [];
    ghost var sent0 := svc.sent;
    var resource := GetOrCreateResource(svc, base, eccrBase, kind, reference, name);
    if resource.Err? {
      return Err(resource.error), fetched;
    }
    ghost var sent1 := svc.sent;
    var resourceId := Get(resource.value, "id");
    var stored;
    stored, fetched := ReconcileGoal(svc, base, kind, elrrGoalId, oldId, resourceId);
    assert svc.sent[..|sent0|] == sent0 && svc.sent[|sent0|] == sent1[|sent0|] by {
      assert svc.sent[..|sent1|] == sent1;
    }
    if stored.Err? {
      return Err(stored.error), fetched;
    }
    r := Ok(resourceId);
  }

  /** `remove_ksa_from_elrr_goal` / `remove_course_from_elrr_goal`: fetch the
      goal and, only when the id is `in` the value under the link kind's key,
      write the goal back with the first copy removed (`RemovedIds`). The result says whether a write-back happened. */
  method RemoveFromGoal(svc: Service, base: string, kind: LinkKind, elrrGoalId: Json, id: Json)
    returns (r: Result<bool>, ghost fetched: Dict)
    requires base != []
    modifies svc
    ensures |svc.sent| > |old(svc.sent)| && svc.sent[..|old(svc.sent)|] == old(svc.sent)
    ensures svc.sent[|old(svc.sent)|] == Request(GET, GoalUrl(base, IdText(elrrGoalId)), [], JNull)
    ensures GoalFetched(Next(old(svc.script))).Ok? ==> fetched == GoalFetched(Next(old(svc.script))).value
    ensures r.Err? ==> ClientError(r.error)
    ensures r == Ok(false) ==> RemovedIds(IdValue(fetched, kind), id) == Ok(None)
    ensures r == Ok(false) ==> |svc.sent| == |old(svc.sent)| + 1
    ensures r == Ok(true) ==> RemovedIds(IdValue(fetched, kind), id).Ok? && RemovedIds(IdValue(fetched, kind), id).value.Some?
    ensures r == Ok(true) ==> |svc.sent| == |old(svc.sent)| + 2
    ensures r == Ok(true) ==> svc.sent[|svc.sent| - 1] == Request(PUT, GoalUrl(base, IdText(Get(fetched, "id"))), [],
           JObj(Set(fetched, ArrayKey(kind), RemovedIds(IdValue(fetched, kind), id).value.value)))
  {
    fetched := [];
    var goal := GetGoal(svc, base, IdText(elrrGoalId));
    if goal.Err? {
      return Err(goal.error), fetched;
    }
    var current := goal.value;
    fetched := current;
    var removed := RemovedIds(IdValue(current, kind), id);
    if removed.Err? {
      return Err(removed.error), fetched;
    }
    if removed.value.None? {
      return Ok(false), fetched;
    }
    var written := WriteBackIds(svc, base, current, kind, removed.value.value);
    if written.Err? {
      return Err(written.error), fetched;
    }
    r := Ok(true);
  }
}
