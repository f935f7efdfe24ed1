// The two handlers of crates/decentgpu-master/src/api/jobs.rs that change jobs.
module JobApi {
  import opened Types
  import opened JobStore
  import opened Matcher
  import JobProtocol

  datatype Reply =
    | Done
    | Created(job: Uuid)
    | NotFound
    | Forbidden
    | BadRequest
    | Conflict
    | Internal       // the database failed

  // ── Forms ──────────────────────────────────────────────────────────────────────────────

  /** One multipart field; the content is `None` when it cannot be read. */
  datatype Field = Field(name: string, content: Option<string>)

  datatype Form = Form(backend: Option<string>, memoryMb: Option<I64>, maxDurationSecs: Option<I64>,
                       code: Option<string>, requirements: Option<string>)

  /** Rust's `str::parse::<i64>`. */
  type Parse = string -> Option<I64>

  predicate Known(name: string) {
    name in {"gpu_backend", "memory_limit_mb", "max_duration_secs", "code", "requirements"}
  }

  predicate Readable(fields: seq<Field>) {
    forall f :: f in fields && Known(f.name) ==> f.content.Some?
  }

  /** The content of the last field of that name. */
  function LastOf(fields: seq<Field>, name: string): Option<string> {
    if fields == [] then None
    else if fields[|fields| - 1].name == name then fields[|fields| - 1].content
    else LastOf(fields[..|fields| - 1], name)
  }

  function Bind(text: Option<string>, parse: Parse): Option<I64> {
    if text.Some? then parse(text.value) else None
  }

  predicate KnownBackend(text: string) {
    text in {"cpu_only", "cuda", "metal", "rocm"}
  }

  function BackendOf(text: string): GpuBackend {
    if text == "cuda" then Cuda else if text == "metal" then Metal else if text == "rocm" then Rocm else CpuOnly
  }

  function FormOf(fields: seq<Field>, parse: Parse): Form {
    Form(LastOf(fields, "gpu_backend"), Bind(LastOf(fields, "memory_limit_mb"), parse),
         Bind(LastOf(fields, "max_duration_secs"), parse), LastOf(fields, "code"), LastOf(fields, "requirements"))
  }

  /** Later fields win, and a number that does not parse counts as absent. */
  method ReadForm(fields: seq<Field>, parse: Parse) returns (form: Option<Form>)
    ensures form == if Readable(fields) then Some(FormOf(fields, parse)) else None
  {
    var backend, memoryMb, maxDurationSecs, code, requirements := None, None, None, None, None;
    for i := 0 to |fields|
      invariant Readable(fields[..i])
      invariant Form(backend, memoryMb, maxDurationSecs, code, requirements) == FormOf(fields[..i], parse)
    {
      var field := fields[i];
      assert fields[..i + 1] == fields[..i] + [field];
      assert fields[..i + 1][..i] == fields[..i];
      if Known(field.name) && field.content.None? {
        assert field in fields;
        return None;
      }
      if field.name == "gpu_backend" {
        backend := field.content;
      } else if field.name == "memory_limit_mb" {
        memoryMb := parse(field.content.value);
      } else if field.name == "max_duration_secs" {
        maxDurationSecs := parse(field.content.value);
      } else if field.name == "code" {
        code := field.content;
      } else if field.name == "requirements" {
        requirements := field.content;
      }
    }
    assert fields[..|fields|] == fields;
    return Some(Form(backend, memoryMb, maxDurationSecs, code, requirements));
  }

  /** The row an accepted form makes; `None` when the form is refused. */
  function RowOf(fields: seq<Field>, parse: Parse, id: Uuid, user: Uuid, now: int): Option<JobRow> {
    var form := FormOf(fields, parse);
    var backend := form.backend.UnwrapOr("cpu_only");
    if !Readable(fields) || !KnownBackend(backend) || form.code.None? then None
    else
      Some(NewRow(id, user, BackendOf(backend), Some(form.memoryMb.UnwrapOr(512)),
                  Some(form.maxDurationSecs.UnwrapOr(3600)), now))
  }

  predicate IsBackend(text: string, backend: GpuBackend) {
    match backend
    case CpuOnly => text == "cpu_only"
    case Cuda => text == "cuda"
    case Metal => text == "metal"
    case Rocm => text == "rocm"
  }

  /** A form is accepted if every field that matters can be read, its backend is one of the four or
      absent, and it has code. */
  predicate IsAccepted(fields: seq<Field>) {
    && (forall f :: f in fields && f.content.None? ==>
          f.name != "gpu_backend" && f.name != "memory_limit_mb" && f.name != "max_duration_secs"
          && f.name != "code" && f.name != "requirements")
    && LastOf(fields, "code").Some?
    && (match LastOf(fields, "gpu_backend")
        case None => true
        case Some(text) => exists backend :: IsBackend(text, backend))
  }

  predicate IsNumberOr(x: Option<I64>, text: Option<string>, parse: Parse, absent: I64) {
    x.Some? && x.value == if text.Some? && parse(text.value).Some? then parse(text.value).value else absent
  }

  /** What an accepted form asks for, a missing or malformed limit being 512 MB or 3600 seconds. */
  predicate IsRowOf(row: JobRow, fields: seq<Field>, parse: Parse, id: Uuid, user: Uuid, now: int) {
    && row == JobRow(id, user, None, Pending, row.backend, row.memoryMb, row.maxDurationSecs, now,
                     None, None, None, None, None)
    && (match LastOf(fields, "gpu_backend")
        case None => row.backend == CpuOnly
        case Some(text) => IsBackend(text, row.backend))
    && IsNumberOr(row.memoryMb, LastOf(fields, "memory_limit_mb"), parse, 512)
    && IsNumberOr(row.maxDurationSecs, LastOf(fields, "max_duration_secs"), parse, 3600)
  }

  lemma RowInWords(fields: seq<Field>, parse: Parse, id: Uuid, user: Uuid, now: int)
    ensures RowOf(fields, parse, id, user, now).Some? <==> IsAccepted(fields)
    ensures IsAccepted(fields) ==> IsRowOf(RowOf(fields, parse, id, user, now).value, fields, parse, id, user, now)
  {
    var text := LastOf(fields, "gpu_backend");
    assert text.Some? ==> (KnownBackend(text.value) <==> exists backend :: IsBackend(text.value, backend)) by {
      if text.Some? && KnownBackend(text.value) {
        assert IsBackend(text.value, BackendOf(text.value));
      }
    }
    if Readable(fields) {
      forall f | f in fields && f.content.None?
        ensures !Known(f.name)
      {
      }
    }
  }

  // ── Handlers ───────────────────────────────────────────────────────────────────────────

  /** What somebody else does to the table: moves an unfinished job, or creates one. */
  datatype Other =
    | Moves(id: Uuid, from: JobStatus, c: Change, now: int)
    | Makes(row: JobRow)

  function DoOther(jobs: Jobs, other: Other): Jobs {
    match other
    case Moves(id, from, c, now) =>
      if from == Completed || from == Cancelled then jobs else Transition(jobs, id, from, c, now)
    case Makes(row) =>
      if row.id in jobs then jobs
      else jobs[row.id := NewRow(row.id, row.hirer, row.backend, row.memoryMb, row.maxDurationSecs, row.createdAt)]
  }

  function DoOthers(jobs: Jobs, others: seq<Other>): Jobs {
    if others == [] then jobs else DoOther(DoOthers(jobs, others[..|others| - 1]), others[|others| - 1])
  }

  ghost predicate Progress(jobs: Jobs, jobs': Jobs) {
    forall id :: id in jobs ==>
      && id in jobs' && jobs'[id].hirer == jobs[id].hirer
      && (jobs[id].status in {Completed, Cancelled} ==> jobs'[id] == jobs[id])
  }

  /** Whatever others do, no job disappears or changes hands, and finished ones stay as they are. */
  lemma {:induction false} OthersProgress(jobs: Jobs, others: seq<Other>)
    ensures Progress(jobs, DoOthers(jobs, others))
  {
    if others != [] {
      OthersProgress(jobs, others[..|others| - 1]);
    }
  }

  /** What became of the job's Docker image. */
  datatype Image = Built | Unreadable | NotBuilt

  class Api {
    const db: JobRepository
    var commands: seq<JobProtocol.Enqueue>

    constructor (db: JobRepository)
      ensures this.db == db && commands == []
    {
      this.db, commands := db, [];
    }

    /** An await: others do this meanwhile. */
    method Await(others: seq<Other>)
      modifies db`jobs, db`writes
      ensures db.jobs == DoOthers(old(db.jobs), others)
    {
      for i := 0 to |others|
        invariant db.jobs == DoOthers(old(db.jobs), others[..i])
      {
        assert others[..i + 1][..i] == others[..i];
        match others[i] {
          case Moves(id, from, c, now) =>
            if from != Completed && from != Cancelled {
              var moved := db.TransitionStatus(id, from, c, now);
            }
          case Makes(row) =>
            var made := db.Create(row.id, row.hirer, row.backend, row.memoryMb, row.maxDurationSecs, row.createdAt);
        }
      }
      assert others[..|others|] == others;
    }

    /** Reads the row, and then sets it from what was read to cancelled, unless others came first.
        `up` says whether the read succeeds, and `fate` what becomes of the update. */
    method CancelJob(user: Uuid, id: Uuid, up: bool, meanwhile: seq<Other>, fate: JobProtocol.Fate, now: int)
      returns (reply: Reply)
      modifies db`jobs, db`writes
      ensures Progress(old(db.jobs), db.jobs)
      ensures var jobs := old(db.jobs);
              if !up then reply == Internal && db.jobs == jobs
              else if id !in jobs then reply == NotFound && db.jobs == jobs
              else if jobs[id].hirer != user then reply == Forbidden && db.jobs == jobs
              else if jobs[id].status != Pending && jobs[id].status != Assigned then
                reply == BadRequest && db.jobs == jobs
              else
                var there := DoOthers(jobs, meanwhile);
                && id in there
                && (fate == JobProtocol.Ran ==> reply == if there[id].status == jobs[id].status then Done else Conflict)
                && (fate != JobProtocol.Ran ==> reply == Internal)
                && (if fate != JobProtocol.Refused && there[id].status == jobs[id].status then
                      && id in db.jobs && db.jobs == there[id := db.jobs[id]]
                      && IsMoved(there[id], db.jobs[id], Change(Cancelled, None, None, None), now)
                    else db.jobs == there)
    {
      if !up {
        return Internal;
      }
      var found := db.FindById(id);
      if found.None? {
        return NotFound;
      }
      var row := found.value;
      if row.hirer != user {
        return Forbidden;
      }
      if row.status !in {Pending, Assigned} {
        return BadRequest;
      }
      OthersProgress(db.jobs, meanwhile);
      Await(meanwhile);
      if fate == JobProtocol.Refused {
        return Internal;
      }
      var updated := db.TransitionStatus(id, row.status, Change(Cancelled, None, None, None), now);
      return if fate == JobProtocol.AnswerLost then Internal else if updated.None? then Conflict else Done;
    }

    /** Creates a pending job from a form; a refused form leaves no trace. */
    method CreateJob(user: Uuid, fields: seq<Field>, parse: Parse, id: Uuid, fate: JobProtocol.Fate, now: int)
      returns (reply: Reply)
      modifies db`jobs, db`writes
      ensures if !IsAccepted(fields) then reply == BadRequest && db.jobs == old(db.jobs)
              else if fate == JobProtocol.Refused || id in old(db.jobs) then
                reply == Internal && db.jobs == old(db.jobs)
              else
                && reply == (if fate == JobProtocol.Ran then Created(id) else Internal)
                && id in db.jobs && db.jobs == old(db.jobs)[id := db.jobs[id]]
                && IsRowOf(db.jobs[id], fields, parse, id, user, now)
    {
      RowInWords(fields, parse, id, user, now);
      var form := ReadForm(fields, parse);
      if form.None? {
        return BadRequest;
      }
      var backend := form.value.backend.UnwrapOr("cpu_only");
      if !KnownBackend(backend) || form.value.code.None? {
        return BadRequest;
      }
      var memoryMb, maxDurationSecs := form.value.memoryMb.UnwrapOr(512), form.value.maxDurationSecs.UnwrapOr(3600);
      if fate == JobProtocol.Refused {
        return Internal;
      }
      var row := db.Create(id, user, BackendOf(backend), Some(memoryMb), Some(maxDurationSecs), now);
      return if row.None? || fate == JobProtocol.AnswerLost then Internal else Created(id);
    }

    /** The task that `create_job` leaves behind: the job is handed to the scheduler whether or not its
        image could be built, unless an image was built that cannot be read. */
    method BuildAndEnqueue(id: Uuid, form: Form, image: Image)
      modifies this`commands
      ensures commands == old(commands)
                          + if image == Unreadable then [] else [JobProtocol.Enqueue(id, RequestFrom(form))]
    {
      var request := RequestFrom(form);
      match image {
        case Built =>
          commands := commands + [JobProtocol.Enqueue(id, request)];
        case Unreadable =>
          return;
        case NotBuilt =>
          commands := commands + [JobProtocol.Enqueue(id, request)];
      }
    }
  }

  function RequestFrom(form: Form): MatchRequest {
    MatchRequest(BackendOf(form.backend.UnwrapOr("cpu_only")), JobProtocol.AsU64(form.memoryMb.UnwrapOr(512)))
  }

  /** The request sent along with a new job is the one that the scheduler later reads from its row. */
  lemma EnqueuedRequestIsRowRequest(fields: seq<Field>, parse: Parse, id: Uuid, user: Uuid, now: int)
    requires RowOf(fields, parse, id, user, now).Some?
    ensures JobProtocol.RequestOf(RowOf(fields, parse, id, user, now).value) == RequestFrom(FormOf(fields, parse))
  {
  }

  lemma {:induction false} NoSuchField(fields: seq<Field>, name: string)
    requires forall f :: f in fields ==> f.name != name
    ensures LastOf(fields, name) == None
  {
    if fields != [] {
      assert fields[|fields| - 1] in fields && forall f :: f in fields[..|fields| - 1] ==> f in fields;
      NoSuchField(fields[..|fields| - 1], name);
    }
  }

  /** The last of several fields of one name decides, whatever stands around it. */
  lemma {:induction false} LastFieldWins(before: seq<Field>, f: Field, after: seq<Field>)
    requires forall g :: g in after ==> g.name != f.name
    ensures LastOf(before + [f] + after, f.name) == f.content
  {
    var all := before + [f] + after;
    if after == [] {
      assert all[|all| - 1] == f;
    } else {
      var init := after[..|after| - 1];
      assert after[|after| - 1] in after;
      assert forall g :: g in init ==> g in after;
      LastFieldWins(before, f, init);
      assert all[..|all| - 1] == before + [f] + init;
    }
  }
}
