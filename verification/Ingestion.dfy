/** Uploads, the ingestion pipeline, and the event it publishes. */
module Ingestion {
  import opened Wrappers
  import opened Envelope

  type Bytes = seq<bv8>

  /** A stored file opened for reading. A read may return fewer bytes than it was asked for. */
  class File {
    const content: Bytes
    var position: nat

    constructor (content: Bytes, position: nat)
      ensures this.content == content && this.position == position
    {
      this.content, this.position := content, position;
    }

    method Seek(position: nat)
      modifies this
      ensures this.position == position
    {
      this.position := position;
    }

    method Read(n: nat) returns (chunk: Bytes)
      requires n > 0
      modifies this
      ensures if old(position) < |content|
              then old(position) < position <= |content| && chunk == content[old(position)..position] && |chunk| <= n
              else chunk == [] && position == old(position)
    {
      if position >= |content| {
        return [];
      }
      var k :| 0 < k <= n && position + k <= |content|;
      chunk := content[position..position + k];
      position := position + k;
    }
  }

  const CHUNK_SIZE := 8192

  /** The digest is that of the whole content, wherever the file stood and however it was cut into chunks. */
  method Checksum(file: File, sha: Bytes -> string) returns (digest: string)
    modifies file
    ensures digest == sha(file.content) && file.position == 0
  {
    file.Seek(0);
    var seen: Bytes := [];
    var chunk := file.Read(CHUNK_SIZE);
    while chunk != []
      invariant file.position <= |file.content| && seen + chunk == file.content[..file.position]
      invariant chunk == [] ==> file.position == |file.content|
      decreases |file.content| - file.position, |chunk|
    {
      seen := seen + chunk;
      chunk := file.Read(CHUNK_SIZE);
    }
    assert file.content[..file.position] == file.content;
    digest := sha(seen);
    file.Seek(0);
  }

  // ---- The file extension ----

  /** The index of the last `c` in `s`, or -1. */
  function LastIndex(s: string, c: char): (i: int)
    ensures -1 <= i < |s|
    ensures i >= 0 ==> s[i] == c
    ensures forall k :: i < k < |s| ==> s[k] != c
  {
    if s == [] then -1
    else if s[|s| - 1] == c then |s| - 1
    else LastIndex(s[..|s| - 1], c)
  }

  /** The suffix from the last dot of the file name on, unless only dots precede it there. */
  function Suffix(filename: string): string {
    var slash, dot := LastIndex(filename, '/'), LastIndex(filename, '.');
    if dot > slash && exists k :: slash < k < dot && filename[k] != '.' then filename[dot..] else ""
  }

  /** A dot of the last path component with something other than dots before it there. */
  ghost predicate SplitsAt(filename: string, dot: nat) {
    && dot < |filename| && filename[dot] == '.'
    && (exists k :: 0 <= k < dot && filename[k] != '.' && forall j :: k <= j < |filename| ==> filename[j] != '/')
  }

  /** There is a suffix exactly when some dot splits the name, and then it begins at the last of those dots. */
  lemma SuffixIff(filename: string)
    ensures Suffix(filename) != "" <==> exists dot: nat :: SplitsAt(filename, dot)
    ensures Suffix(filename) != "" ==>
      var dot := |filename| - |Suffix(filename)|;
      && SplitsAt(filename, dot) && filename[dot..] == Suffix(filename)
      && forall k :: dot < k < |filename| ==> filename[k] != '.'
  {
    var slash, dot := LastIndex(filename, '/'), LastIndex(filename, '.');
    if Suffix(filename) != "" {
      var k :| slash < k < dot && filename[k] != '.';
      assert SplitsAt(filename, dot);
    }
    forall d: nat | SplitsAt(filename, d) ensures Suffix(filename) != "" {
      var k :| 0 <= k < d && filename[k] != '.' && forall j :: k <= j < |filename| ==> filename[j] != '/';
      assert d <= dot && slash < k < dot;
    }
  }

  // ---- Sessions ----

  datatype State = NEW | UPLOADED | VALIDATING | PROCESSING | READY | DOCUMENT_CREATED | FAILED

  datatype Session = Session(
    id: string,
    tenant: string,
    createdBy: Option<string>,
    title: string,
    documentType: Option<string>,
    filename: string,
    mimeType: string,
    size: nat,
    checksum: Option<string>,
    extension: Option<string>,
    state: State,
    storageKey: Option<string>,
    errorDetail: Option<string>)

  /** The stored session, the stored files, and the events on the stream. */
  datatype System = System(row: Session, files: map<string, Bytes>, published: seq<EventEnvelope>)

  /** The digest and the lower-casing function that the processors use. */
  datatype Tools = Tools(sha: Bytes -> string, lower: string -> string)

  /** What the surroundings decide in one pipeline call: failures, and the event's identity. */
  datatype Env = Env(
    invalid: Option<string>,
    broken: Option<string>,
    publishFails: bool,
    refused: set<State>,
    eventId: string,
    now: string)

  datatype Failure = SaveRefused | Invalid | Broken | PublishFailed

  function Saved(sys: System, state: State): System {
    sys.(row := sys.row.(state := state))
  }

  function Failed(env: Env, sys: System, detail: string, why: Option<Failure>): (System, Option<Failure>) {
    if FAILED in env.refused then (sys, Some(SaveRefused))
    else (sys.(row := sys.row.(state := FAILED, errorDetail := Some(detail))), why)
  }

  const NO_KEY := "No storage key found \U{2014} file was never written to storage."
  const NO_FILE := "The stored file cannot be opened."

  function TextOrNull(s: Option<string>): Json {
    if s.Some? then Text(s.value) else Null
  }

  function PayloadOf(s: Session): Payload {
    map["session_id" := Text(s.id),
        "title" := Text(s.title),
        "document_type" := TextOrNull(s.documentType),
        "filename" := Text(s.filename),
        "mime_type" := Text(s.mimeType),
        "size" := Number(s.size),
        "checksum" := TextOrNull(s.checksum),
        "extension" := TextOrNull(s.extension),
        "storage_key" := TextOrNull(s.storageKey)]
  }

  const DOCUMENT_EVENT := "document.created"

  function EventOf(s: Session, id: string, now: string): EventEnvelope {
    EventEnvelope(id, DOCUMENT_EVENT, Some(s.tenant), OrNone(OrEmpty(s.createdBy)), PayloadOf(s), now)
  }

  /** The session as the processors leave it in memory; none of this is stored. */
  function Processed(tools: Tools, s: Session, content: Bytes): Session {
    s.(checksum := Some(tools.sha(content)), extension := OrNone(tools.lower(Suffix(s.filename))))
  }

  /** A call of the pipeline, stage by stage. */
  function RunPipeline(tools: Tools, env: Env, sys: System): (System, Option<Failure>) {
    if sys.row.state == DOCUMENT_CREATED then (sys, None)
    else if sys.row.storageKey.None? || sys.row.storageKey.value == "" then Failed(env, sys, NO_KEY, None)
    else if VALIDATING in env.refused then (sys, Some(SaveRefused))
    else if env.invalid.Some? then Failed(env, Saved(sys, VALIDATING), env.invalid.value, Some(Invalid))
    else if PROCESSING in env.refused then (Saved(sys, VALIDATING), Some(SaveRefused))
    else if env.broken.Some? then Failed(env, Saved(sys, PROCESSING), env.broken.value, Some(Broken))
    else if sys.row.storageKey.value !in sys.files then Failed(env, Saved(sys, PROCESSING), NO_FILE, Some(Broken))
    else
      var started := Saved(sys, PROCESSING);
      Finish(env, started, Processed(tools, started.row, sys.files[sys.row.storageKey.value]))
  }

  /** The last stages: the event goes out before the state is saved, and stays out when the save is refused. */
  function Finish(env: Env, sys: System, s: Session): (System, Option<Failure>) {
    if READY in env.refused then (sys, Some(SaveRefused))
    else if env.publishFails then (Saved(sys, READY), Some(PublishFailed))
    else
      var sent := Saved(sys, READY).(published := sys.published + [EventOf(s, env.eventId, env.now)]);
      if DOCUMENT_CREATED in env.refused then (sent, Some(SaveRefused)) else (Saved(sent, DOCUMENT_CREATED), None)
  }

  datatype Status = NoContent204 | BadRequest400 | NotFound404

  /** An upload: the file is stored under a key, and the session starts over. */
  function Upload(sys: System, found: bool, file: Option<Bytes>, key: string): (System, Status) {
    if !found then (sys, NotFound404)
    else if file.None? then (sys, BadRequest400)
    else (sys.(files := sys.files[key := file.value],
               row := sys.row.(storageKey := Some(key), state := UPLOADED)), NoContent204)
  }

  class Pipeline {
    var sys: System

    constructor (sys: System)
      ensures this.sys == sys
    {
      this.sys := sys;
    }

    /** Only the state is saved. */
    method Transition(env: Env, s: Session, state: State) returns (s': Session, ok: bool)
      modifies this
      ensures s' == s.(state := state) && ok == (state !in env.refused)
      ensures sys == if ok then Saved(old(sys), state) else old(sys)
    {
      s' := s.(state := state);
      ok := state !in env.refused;
      if ok {
        sys := sys.(row := sys.row.(state := state));
      }
    }

    method Fail(env: Env, detail: string, why: Option<Failure>) returns (failure: Option<Failure>)
      modifies this
      ensures (sys, failure) == Failed(env, old(sys), detail, why)
    {
      if FAILED in env.refused {
        return Some(SaveRefused);
      }
      sys := sys.(row := sys.row.(state := FAILED, errorDetail := Some(detail)));
      return why;
    }

    method Process(tools: Tools, s: Session, file: File) returns (s': Session)
      modifies file
      ensures s' == Processed(tools, s, file.content)
    {
      var digest := Checksum(file, tools.sha);
      s' := s.(checksum := Some(digest));
      s' := s'.(extension := OrNone(tools.lower(Suffix(s'.filename))));
    }

    method PublishAndFinish(env: Env, s: Session) returns (failure: Option<Failure>)
      modifies this
      ensures (sys, failure) == Finish(env, old(sys), s)
    {
      var ready, ok := Transition(env, s, READY);
      if !ok {
        return Some(SaveRefused);
      }
      if env.publishFails {
        return Some(PublishFailed);
      }
      sys := sys.(published := sys.published + [EventOf(ready, env.eventId, env.now)]);
      ready, ok := Transition(env, ready, DOCUMENT_CREATED);
      return if ok then None else Some(SaveRefused);
    }

    method Run(tools: Tools, env: Env) returns (failure: Option<Failure>)
      modifies this
      ensures (sys, failure) == RunPipeline(tools, env, old(sys))
    {
      var s := sys.row;
      if s.state == DOCUMENT_CREATED {
        return None;
      }
      if s.storageKey.None? || s.storageKey.value == "" {
        failure := Fail(env, NO_KEY, None);
        return;
      }
      var ok;
      s, ok := Transition(env, s, VALIDATING);
      if !ok {
        return Some(SaveRefused);
      }
      if env.invalid.Some? {
        failure := Fail(env, env.invalid.value, Some(Invalid));
        return;
      }
      s, ok := Transition(env, s, PROCESSING);
      if !ok {
        return Some(SaveRefused);
      }
      if env.broken.Some? || s.storageKey.value !in sys.files {
        failure := Fail(env, if env.broken.Some? then env.broken.value else NO_FILE, Some(Broken));
        return;
      }
      var file := new File(sys.files[s.storageKey.value], 0);
      s := Process(tools, s, file);
      failure := PublishAndFinish(env, s);
    }

    method Put(found: bool, file: Option<Bytes>, key: string) returns (status: Status)
      modifies this
      ensures (sys, status) == Upload(old(sys), found, file, key)
      ensures status == if !found then NotFound404 else if file.None? then BadRequest400 else NoContent204
      ensures !found || file.None? ==> sys == old(sys)
      ensures found && file.Some? ==>
        && sys.files == old(sys).files[key := file.value] && sys.published == old(sys).published
        && sys.row == old(sys).row.(storageKey := Some(key), state := UPLOADED)
    {
      if !found {
        return NotFound404;
      }
      if file.None? {
        return BadRequest400;
      }
      var files := sys.files[key := file.value];
      sys := sys.(files := files, row := sys.row.(storageKey := Some(key), state := UPLOADED));
      return NoContent204;
    }
  }
}
