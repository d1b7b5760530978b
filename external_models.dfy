/** The learner records of the external catalog models: each user has at
    most one, which protects the user from deletion. Courses and jobs, stored
    under their `reference` primary key, are written in `Catalog`. */
module ExternalModels {
  import opened Outcomes

  /** A `LearnerRecord` row. */
  datatype LearnerRecord = LearnerRecord(name: string, user: nat)

  /** Some record belongs to `user`. */
  predicate HasRecord(records: map<nat, LearnerRecord>, user: nat) {
    exists r :: r in records && records[r].user == user
  }

  /** The `OneToOneField`: no two records share a user, and each names an
      existing user. */
  ghost predicate OneToOne(users: set<nat>, records: map<nat, LearnerRecord>) {
    (forall r :: r in records ==> records[r].user in users)
    && (forall a, b :: a in records && b in records && a != b ==> records[a].user != records[b].user)
  }

  /** The learner records together with the users they point at. */
  class LearnerRecords {
    var users: set<nat>
    var records: map<nat, LearnerRecord>

    constructor (existing: set<nat>)
      ensures users == existing && records == map[]
      ensures OneToOne(users, records)
    {
      users := existing;
      records := map[];
    }

    /** Inserting a record: a user that does not exist, or that already has a
        record, fails the database's constraints. `id` is the key the
        database hands out. */
    method Create(id: nat, name: string, user: nat) returns (r: Result<nat>)
      requires id !in records
      modifies this
      ensures users == old(users)
      ensures r.Err? <==> user !in old(users) || HasRecord(old(records), user)
      ensures r.Err? ==> r.error == IntegrityError && records == old(records)
      ensures r.Ok? ==> r.value == id && records == old(records)[id := LearnerRecord(name, user)]
      ensures OneToOne(old(users), old(records)) ==> OneToOne(users, records)
    {
      if user !in users || HasRecord(records, user) {
        return Err(IntegrityError);
      }
      records := records[id := LearnerRecord(name, user)];
      r := Ok(id);
    }

    /** Deleting a user: `on_delete=PROTECT` refuses while a learner record
        points at the user; otherwise the user goes and the records stay. */
    method DeleteUser(user: nat) returns (r: Result<bool>)
      modifies this
      ensures records == old(records)
      ensures r.Err? <==> HasRecord(old(records), user)
      ensures r.Err? ==> r.error == ProtectedError && users == old(users)
      ensures r.Ok? ==> r.value == (user in old(users)) && users == old(users) - {user}
      ensures OneToOne(old(users), old(records)) ==> OneToOne(users, records)
    {
      if HasRecord(records, user) {
        return Err(ProtectedError);
      }
      r := Ok(user in users);
      users := users - {user};
    }
  }
}
