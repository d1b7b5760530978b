/** `VacancySerializer`: a vacancy is stored under its `vacancy_key`, and a
    nested job is resolved by reference into the job table, reusing an existing
    job rather than duplicating it. */
module Vacancies {
  import opened Outcomes
  import opened JsonValues
  import Homoglyphs
  import opened Catalog

  const HomoglyphMessage: string := "Data contains homoglyphs and can be dangerous. Check logs for more details"

  /** A vacancy row: its other columns, and the reference of its job (`job_id`). */
  datatype Vacancy = Vacancy(fields: Dict, job: Option<string>)

  /** Every vacancy that names a job names one in the job table. */
  ghost predicate JobsResolve(rows: map<string, Vacancy>, jobs: map<string, Job>) {
    forall k :: k in rows && rows[k].job.Some? ==> rows[k].job.value in jobs
  }

  /** `VacancySerializer.validate`: the payload, nested job included, is
      refused when any string in it is dangerous. */
  method Validate(attrs: Dict, dangerous: string -> bool) returns (r: Result<Dict>)
    ensures r.Ok? <==> Homoglyphs.Safe(attrs, dangerous)
    ensures r.Ok? ==> r.value == attrs
    ensures r.Err? ==> r.error == ValidationError(HomoglyphMessage)
  {
    var safe := Homoglyphs.Check(attrs, dangerous);
    if !safe {
      return Err(ValidationError(HomoglyphMessage));
    }
    r := Ok(attrs);
  }

  class VacancyTable {
    var rows: map<string, Vacancy>

    constructor ()
      ensures rows == map[]
    {
      rows := map[];
    }

    /** `VacancySerializer.create`. `job` is the validated nested job, `None`
        when it is absent or null. The vacancy is inserted first (an insert
        under a taken key fails before anything else happens); then, with job
        data, the job is fetched or created by reference and linked. */
    method Create(tables: Tables, key: string, fields: Dict, job: Option<JobData>) returns (r: Result<string>)
      modifies this, tables
      ensures tables.courses == old(tables.courses) && tables.ksas == old(tables.ksas)
      ensures tables.competencies == old(tables.competencies)
      ensures key in old(rows) ==> r == Err(IntegrityError) && rows == old(rows) && tables.jobs == old(tables.jobs)
      ensures key !in old(rows) ==> r == Ok(key)
      ensures key !in old(rows) && job.None? ==>
        rows == old(rows)[key := Vacancy(fields, None)] && tables.jobs == old(tables.jobs)
      ensures key !in old(rows) && job.Some? ==>
        rows == old(rows)[key := Vacancy(fields, Some(job.value.reference))]
      ensures key !in old(rows) && job.Some? && job.value.reference in old(tables.jobs) ==>
        tables.jobs == old(tables.jobs)
      ensures key !in old(rows) && job.Some? && job.value.reference !in old(tables.jobs) ==>
        tables.jobs == old(tables.jobs)[job.value.reference := Job(job.value.name, job.value.jobType)]
      ensures JobsResolve(old(rows), old(tables.jobs)) ==> JobsResolve(rows, tables.jobs)
    {
      if key in rows {
        return Err(IntegrityError);
      }
      rows := rows[key := Vacancy(fields, None)];
      if job.Some? {
        var _ := tables.GetOrCreateJob(job.value);
        rows := rows[key := Vacancy(fields, Some(job.value.reference))];
      }
      r := Ok(key);
    }
  }
}
