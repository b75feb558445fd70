/** The job-posting row as it is stored (snake_case keys) and as it is shown
    (camelCase keys, formatted dates). */
module Jobs {
  import opened Wrappers

  /** The three values of the `job_type` column: 정규직 (full-time),
      계약직 (contract) and 인턴 (intern). */
  datatype JobType = FullTime | Contract | Intern

  /** A row of the `jobs` table. `is_always` may be missing from a stored row,
      so it is optional here. */
  datatype RawJob = RawJob(
    id: string,
    created_at: string,
    company_name: string,
    position: string,
    job_type: JobType,
    image_url: string,
    title: string,
    description: string,
    experience: string,
    start_date: string,
    end_date: string,
    is_always: Option<bool>,
    url: string)

  /** A job posting as returned to the page. */
  datatype Job = Job(
    id: string,
    createdAt: string,
    companyName: string,
    position: string,
    jobType: JobType,
    imageUrl: string,
    title: string,
    description: string,
    experience: string,
    startDate: string,
    endDate: string,
    isAlways: bool,
    url: string)

  /** One returned row reshaped for display: every key renamed to camelCase,
      the creation, start and end dates passed through `formatDate`, and an
      absent `is_always` read as `false`. `formatDate` stands for the
      locale-dependent date formatter and is left uninterpreted. */
  function ToJob(raw: RawJob, formatDate: string -> string): (job: Job)
    ensures job.createdAt == formatDate(raw.created_at)
    ensures job.startDate == formatDate(raw.start_date)
    ensures job.endDate == formatDate(raw.end_date)
    ensures job.isAlways <==> raw.is_always == Some(true)
    ensures job.id == raw.id && job.companyName == raw.company_name
    ensures job.position == raw.position && job.jobType == raw.job_type
    ensures job.imageUrl == raw.image_url && job.title == raw.title
    ensures job.description == raw.description && job.experience == raw.experience
    ensures job.url == raw.url
  {
    Job(
      id := raw.id,
      createdAt := formatDate(raw.created_at),
      companyName := raw.company_name,
      position := raw.position,
      jobType := raw.job_type,
      imageUrl := raw.image_url,
      title := raw.title,
      description := raw.description,
      experience := raw.experience,
      startDate := formatDate(raw.start_date),
      endDate := formatDate(raw.end_date),
      isAlways := raw.is_always.GetOr(false),
      url := raw.url)
  }

  /** The inverse key renaming, camelCase back to snake_case, with the dates
      left as they are. */
  function ToRaw(job: Job): (raw: RawJob)
    ensures raw.is_always.Some?
  {
    RawJob(
      id := job.id,
      created_at := job.createdAt,
      company_name := job.companyName,
      position := job.position,
      job_type := job.jobType,
      image_url := job.imageUrl,
      title := job.title,
      description := job.description,
      experience := job.experience,
      start_date := job.startDate,
      end_date := job.endDate,
      is_always := Some(job.isAlways),
      url := job.url)
  }

  /** The key renaming loses no field: with dates left unformatted, renaming and
      renaming back gives the row again, with a missing `is_always` now
      `false`. */
  lemma ToJobThenToRaw(raw: RawJob)
    ensures ToRaw(ToJob(raw, d => d)) == raw.(is_always := Some(raw.is_always.GetOr(false)))
  {
  }

  /** ... and every display record is the renaming of some stored row. */
  lemma ToRawThenToJob(job: Job)
    ensures ToJob(ToRaw(job), d => d) == job
  {
  }

  /** Two rows with the same display record agree on every field except the
      three dates, and their `is_always` flags read the same. */
  lemma ToJobKeepsNonDateFields(a: RawJob, b: RawJob, formatDate: string -> string)
    requires ToJob(a, formatDate) == ToJob(b, formatDate)
    ensures a.(created_at := "", start_date := "", end_date := "", is_always := None)
         == b.(created_at := "", start_date := "", end_date := "", is_always := None)
    ensures a.is_always.GetOr(false) == b.is_always.GetOr(false)
  {
  }
}
