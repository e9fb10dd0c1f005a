/** What the note tools do to one note: the functions that `rewrite`, `claim_note`, `release_note` and `close`
    apply to the text they read (mindin/notes.py, mindin/tasks.py). */
module NoteTools {
  import opened Texts

  type Key = string

  datatype Claim = Claim(machine: string, task: string, repo: string, since: string)

  /** The value under the claim key: missing, a mapping, or something that is not a mapping. */
  datatype ClaimValue = Absent | Mapping(claim: Claim) | Junk

  datatype Front = Front(fields: map<string, string>, claim: ClaimValue)

  /** A stored text as `parse` reads it; Broken is a text on which it raises. */
  datatype Text = Broken(raw: string) | Note(front: Front, body: string)

  /** A version identifies a content. `tag` tells apart two versions of one content: a content hash always uses 0,
      a sealed object, whose bytes carry a fresh nonce, never uses a tag twice. */
  datatype Version = Version(text: Text, tag: nat)

  /** The expected version of a conditional write: the must-not-exist mark, or a version. */
  datatype Expect = MustNotExist | Exactly(version: Version)

  /** One reading of the clock: the day, and the second as `claim_stamp` renders it. */
  datatype Clock = Clock(today: string, stamp: string)

  datatype Schema = Schema(
    accepts: (Key, Front) -> bool,
    logEntry: (string, string, string, string, string) -> string)

  datatype How = Superseded(target: string) | Settled(status: string)

  datatype Job =
    | WriteNote(front: Front, body: string)
    | WriteOver(front: Front, body: string, etag: Expect)
    | Append(content: string)
    | SetStatus(status: string, priority: string, source: string)
    | LogAppend(repo: string, line: string, commits: string, area: string, branch: string)
    | ClaimNote(machine: string, task: string, repo: string, force: bool)
    | ReleaseNote(holder: Option<string>)
    | CloseInPlace(how: How)

  datatype Reply = Nothing | Entry(entry: string) | Took(claim: Claim) | Held(claim: Claim) | NoClaim

  datatype Error = NotFound | Unparsable | Invalid | NoName

  /** What the callback makes of the text it is given: nothing, an exception, or a new text. */
  datatype Decision = Leave(reply: Reply) | Raise(error: Error) | Put(text: Text, reply: Reply)

  const REWRITE_RETRIES := 3
  const CLAIM_ATTEMPTS := 3
  const BACKLOG := "backlog"

  function Attempts(job: Job): nat {
    match job
    case ClaimNote(_, _, _, _) => CLAIM_ATTEMPTS
    case ReleaseNote(_) => CLAIM_ATTEMPTS
    case WriteOver(_, _, _) => 1
    case _ => REWRITE_RETRIES + 1
  }

  function TextOf(cell: Option<Version>): Option<Text> {
    if cell.Some? then Some(cell.value.text) else None
  }

  /** `dump` followed by `parse`: the body comes back with one leading newline, whatever it led with. */
  function Dump(front: Front, body: string): Text {
    Note(front, "\n" + StripNewlines(body))
  }

  function ClaimFields(value: ClaimValue): Option<Claim> {
    if value.Mapping? && value.claim.machine != "" && value.claim.task != "" && value.claim.since != ""
    then Some(value.claim) else None
  }

  function ClaimIn(text: Option<Text>): Option<Claim> {
    if text.Some? && text.value.Note? then ClaimFields(text.value.front.claim) else None
  }

  function WithClaim(front: Front, claim: Option<Claim>): Front {
    front.(claim := if claim.Some? then Mapping(claim.value) else Absent)
  }

  function WithDates(front: Front, clock: Clock): Front {
    var stamped := front.fields["updated" := clock.today];
    if "date" in stamped && stamped["date"] != "" then front.(fields := stamped)
    else front.(fields := stamped["date" := clock.today])
  }

  function Field(front: Front, name: string, default: string): string {
    if name in front.fields && front.fields[name] != "" then front.fields[name] else default
  }

  function Extended(body: string, content: string): string {
    if Blank(body) then content + "\n" else RStrip(body) + "\n" + content + "\n"
  }

  /** Stamp, validate, dump: the end of every tool but log_append. */
  function Stamped(schema: Schema, key: Key, front: Front, body: string, clock: Clock, reply: Reply): Decision {
    var stamped := WithDates(front, clock);
    if schema.accepts(key, stamped) then Put(Dump(stamped, body), reply) else Raise(Invalid)
  }

  function AreaLink(area: string, repo: string): string {
    var stem := Strip(if area != "" then area else repo);
    if StartsWith(stem, "[[") then stem else "[[" + stem + "]]"
  }

  function NewLog(repo: string, area: string, clock: Clock): Text {
    Note(Front(map["title" := "Log \U{2014} " + repo, "date" := clock.today, "updated" := clock.today,
                   "tags" := "log, " + repo, "status" := "active", "kind" := "log",
                   "area" := AreaLink(area, repo)], Absent), "")
  }

  function OrDash(s: string): string {
    if s == "" then "-" else s
  }

  function LogFront(front: Front, job: Job, clock: Clock): Front
    requires job.LogAppend?
  {
    var named := if job.area == "" then front.fields else front.fields["area" := AreaLink(job.area, job.repo)];
    front.(fields := named["updated" := clock.today])
  }

  function LogEntry(schema: Schema, front: Front, job: Job, clock: Clock): string
    requires job.LogAppend?
  {
    schema.logEntry(clock.today, job.line, OrDash(job.commits), OrDash(job.branch), Field(front, "area", "-"))
  }

  function ClosedFront(front: Front, how: How): Front {
    var fields := match how
      case Superseded(target) => front.fields["status" := "superseded"]["superseded_by" := "[[" + target + "]]"]
      case Settled(status) => front.fields["status" := if status == "" then "complete" else status];
    Front(fields, Absent)
  }

  function StatusFront(front: Front, job: Job): Front
    requires job.SetStatus?
  {
    var restated := front.fields["status" := job.status];
    var ranked := if job.priority == "" then restated else restated["priority" := job.priority];
    var sourced := if job.source == "" then ranked else ranked["source" := job.source];
    Front(sourced, if job.status == BACKLOG then Absent else front.claim)
  }

  function ClaimTaken(held: Option<Claim>, job: Job, clock: Clock): Claim
    requires job.ClaimNote?
  {
    var kept := held.Some? && held.value.machine == job.machine && held.value.task == job.task;
    Claim(job.machine, job.task, job.repo, if kept then held.value.since else clock.stamp)
  }

  /** The callback of each tool, applied to the text just read (None when the note is absent). */
  function Decide(schema: Schema, key: Key, job: Job, clock: Clock, current: Option<Text>): Decision {
    match job
    case WriteNote(front, body) => Stamped(schema, key, WithClaim(front, ClaimIn(current)), body, clock, Nothing)
    case WriteOver(front, body, _) => Stamped(schema, key, WithClaim(front, ClaimIn(current)), body, clock, Nothing)
    case Append(content) =>
      if current.None? then Raise(NotFound)
      else if current.value.Broken? then Raise(Unparsable)
      else Stamped(schema, key, current.value.front, Extended(current.value.body, content), clock, Nothing)
    case SetStatus(_, _, _) =>
      if current.None? then Raise(NotFound)
      else if current.value.Broken? then Raise(Unparsable)
      else Stamped(schema, key, StatusFront(current.value.front, job), current.value.body, clock, Nothing)
    case LogAppend(repo, _, _, area, _) =>
      var existing := if current.Some? then current.value else NewLog(repo, area, clock);
      if existing.Broken? then Raise(Unparsable)
      else
        var front := LogFront(existing.front, job, clock);
        var entry := LogEntry(schema, front, job, clock);
        Put(Dump(front, Extended(existing.body, entry)), Entry(entry))
    case ClaimNote(machine, task, _, force) =>
      if machine == "" || task == "" then Raise(NoName)
      else if current.None? then Raise(NotFound)
      else if current.value.Broken? then Raise(Unparsable)
      else
        var front := current.value.front;
        var held := ClaimFields(front.claim);
        if held.Some? && held.value.machine != machine && !force then Leave(Held(held.value))
        else
          var claim := ClaimTaken(held, job, clock);
          Stamped(schema, key, front.(claim := Mapping(claim)), current.value.body, clock, Took(claim))
    case ReleaseNote(holder) =>
      if current.None? then Raise(NotFound)
      else if current.value.Broken? then Raise(Unparsable)
      else
        var front := current.value.front;
        var held := ClaimFields(front.claim);
        if front.claim.Absent? then Leave(NoClaim)
        else if held.Some? && holder.Some? && held.value.machine != holder.value then Leave(Held(held.value))
        else Stamped(schema, key, front.(claim := Absent), current.value.body, clock, NoClaim)
    case CloseInPlace(how) =>
      if current.None? then Raise(NotFound)
      else if current.value.Broken? then Raise(Unparsable)
      else Stamped(schema, key, ClosedFront(current.value.front, how), current.value.body, clock, Nothing)
  }
}
