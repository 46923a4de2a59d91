/** What every run of uploads and pipeline calls keeps: the number of events, and what they say. */
module IngestionRuns {
  import opened Wrappers
  import opened Envelope
  import opened Ingestion

  datatype Op =
    | Uploading(found: bool, file: Option<Bytes>, key: string)
    | Running(env: Env)

  function Apply(tools: Tools, sys: System, op: Op): System {
    match op
    case Uploading(found, file, key) => Upload(sys, found, file, key).0
    case Running(env) => RunPipeline(tools, env, sys).0
  }

  /** The state after `ops`, one after another. */
  function After(tools: Tools, sys: System, ops: seq<Op>): System
    decreases |ops|
  {
    if ops == [] then sys else Apply(tools, After(tools, sys, ops[..|ops| - 1]), ops[|ops| - 1])
  }

  /** A session just created, with nothing uploaded or published; storage may hold files of other sessions. */
  predicate Created(sys: System) {
    sys.row.state == NEW && sys.row.storageKey.None? && sys.published == []
  }

  predicate Accepted(op: Op) {
    op.Uploading? && op.found && op.file.Some?
  }

  function Uploads(ops: seq<Op>): nat {
    if ops == [] then 0 else Uploads(ops[..|ops| - 1]) + if Accepted(ops[|ops| - 1]) then 1 else 0
  }

  // ---- How many events ----

  /** A call that gets as far as publishing, and whose last save is then refused. */
  predicate RefusesAfterPublishing(env: Env) {
    && DOCUMENT_CREATED in env.refused
    && VALIDATING !in env.refused && PROCESSING !in env.refused && READY !in env.refused
    && env.invalid.None? && env.broken.None? && !env.publishFails
  }

  function Unsaved(op: Op): nat {
    if op.Running? && RefusesAfterPublishing(op.env) then 1 else 0
  }

  function UnsavedIn(ops: seq<Op>): nat {
    if ops == [] then 0 else UnsavedIn(ops[..|ops| - 1]) + Unsaved(ops[|ops| - 1])
  }

  /** A file is there for which the next call may publish. */
  function Pending(sys: System): nat {
    if sys.row.storageKey.Some? && sys.row.storageKey.value != "" && sys.row.state != DOCUMENT_CREATED then 1 else 0
  }

  lemma StepCounts(tools: Tools, sys: System, op: Op)
    ensures |Apply(tools, sys, op).published| + Pending(Apply(tools, sys, op))
            <= |sys.published| + Pending(sys) + (if Accepted(op) then 1 else 0) + Unsaved(op)
  {
  }

  /** Every event is paid for by an upload, or by a save that was refused after publishing. */
  lemma {:induction false} EventsAreCounted(tools: Tools, sys: System, ops: seq<Op>)
    requires Created(sys)
    ensures |After(tools, sys, ops).published| + Pending(After(tools, sys, ops)) <= Uploads(ops) + UnsavedIn(ops)
    decreases |ops|
  {
    if ops != [] {
      var n := |ops| - 1;
      EventsAreCounted(tools, sys, ops[..n]);
      StepCounts(tools, After(tools, sys, ops[..n]), ops[n]);
    }
  }

  /** Pipeline calls meet only the surroundings in `envs`. */
  predicate Within(envs: iset<Env>, ops: seq<Op>) {
    forall op :: op in ops && op.Running? ==> op.env in envs
  }

  /** In no run of uploads and of calls in these surroundings are there more events than uploads. */
  ghost predicate NeverTwice(tools: Tools, sys: System, envs: iset<Env>) {
    forall ops :: Within(envs, ops) ==> |After(tools, sys, ops).published| <= Uploads(ops)
  }

  lemma {:induction false} NoneUnsaved(envs: iset<Env>, ops: seq<Op>)
    requires Within(envs, ops) && forall env :: env in envs ==> !RefusesAfterPublishing(env)
    ensures UnsavedIn(ops) == 0
  {
    if ops != [] {
      assert ops[|ops| - 1] in ops;
      NoneUnsaved(envs, ops[..|ops| - 1]);
    }
  }

  /** One upload and two calls that refuse the save after publishing: two events. */
  lemma OneUploadPublishedTwice(tools: Tools, sys: System, env: Env) returns (ops: seq<Op>)
    requires Created(sys) && RefusesAfterPublishing(env)
    ensures Within(iset{env}, ops) && Uploads(ops) == 1 && |After(tools, sys, ops).published| == 2
  {
    var upload, call := Uploading(true, Some([]), "key"), Running(env);
    ops := [upload, call, call];
    assert ops[..2] == [upload, call] && [upload, call][..1] == [upload] && [upload][..0] == [];
    assert After(tools, sys, []) == sys && Uploads([]) == 0;
    var one := Apply(tools, sys, upload);
    assert After(tools, sys, [upload]) == one && Uploads([upload]) == 1;
    var two := Apply(tools, one, call);
    assert After(tools, sys, [upload, call]) == two && Uploads([upload, call]) == 1;
    assert |two.published| == 1 && two.row.state == READY && two.row.storageKey == one.row.storageKey;
    assert After(tools, sys, ops) == Apply(tools, two, call);
  }

  /**
   There is at most one event for each upload in every run, exactly when no call that gets as far as publishing
   has its last save refused.
   */
  lemma NeverTwiceIff(tools: Tools, sys: System, envs: iset<Env>)
    requires Created(sys)
    ensures NeverTwice(tools, sys, envs) <==> forall env :: env in envs ==> !RefusesAfterPublishing(env)
  {
    if forall env :: env in envs ==> !RefusesAfterPublishing(env) {
      forall ops | Within(envs, ops) ensures |After(tools, sys, ops).published| <= Uploads(ops) {
        EventsAreCounted(tools, sys, ops);
        NoneUnsaved(envs, ops);
      }
    } else {
      var env :| env in envs && RefusesAfterPublishing(env);
      var ops := OneUploadPublishedTwice(tools, sys, env);
    }
  }

  /** Once the document is created, pipeline calls publish nothing and change nothing. */
  lemma {:induction false} FinishedIsFinal(tools: Tools, sys: System, ops: seq<Op>)
    requires sys.row.state == DOCUMENT_CREATED && forall k :: 0 <= k < |ops| ==> ops[k].Running?
    ensures After(tools, sys, ops) == sys
    decreases |ops|
  {
    if ops != [] {
      FinishedIsFinal(tools, sys, ops[..|ops| - 1]);
    }
  }

  // ---- What the events say ----

  /** A key and the content stored under it. */
  datatype Stored = Stored(key: string, content: Bytes)

  /** The file of the last accepted upload. */
  function LatestUpload(ops: seq<Op>): Option<Stored> {
    if ops == [] then None
    else
      var last := ops[|ops| - 1];
      if Accepted(last) then Some(Stored(last.key, last.file.value)) else LatestUpload(ops[..|ops| - 1])
  }

  /** The event of a session for this file. */
  ghost predicate Describes(tools: Tools, start: Session, file: Stored, e: EventEnvelope) {
    e == EventOf(start.(checksum := Some(tools.sha(file.content)),
                        extension := OrNone(tools.lower(Suffix(start.filename))),
                        storageKey := Some(file.key)), e.id, e.publishedAt)
  }

  /** What is declared when a session is created never changes; what processors compute is never stored. */
  ghost predicate SameDeclaration(start: Session, row: Session) {
    row == start.(state := row.state, storageKey := row.storageKey, errorDetail := row.errorDetail)
  }

  /** A call changes the state and the error detail only, and publishes nothing or the event of the stored file. */
  lemma PipelineEffect(tools: Tools, env: Env, sys: System)
    ensures var after := RunPipeline(tools, env, sys).0;
      && after.files == sys.files
      && after.row == sys.row.(state := after.row.state, errorDetail := after.row.errorDetail)
      && (|| (&& after.published == sys.published
              && (after.row.state == DOCUMENT_CREATED ==> sys.row.state == DOCUMENT_CREATED))
          || (&& sys.row.storageKey.Some? && sys.row.storageKey.value in sys.files
              && after.published == sys.published
                   + [EventOf(Processed(tools, sys.row, sys.files[sys.row.storageKey.value]), env.eventId, env.now)]))
  {
  }

  /** Where a call leaves a session that is not finished, when no save is refused. */
  lemma Outcomes(tools: Tools, env: Env, sys: System)
    requires env.refused == {} && sys.row.state != DOCUMENT_CREATED
    ensures var (after, failure) := RunPipeline(tools, env, sys);
            var key := sys.row.storageKey;
      && (key.None? || key.value == "" ==>
            after.row.state == FAILED && after.row.errorDetail == Some(NO_KEY) && failure.None?)
      && (key.Some? && key.value != "" ==>
            && (env.invalid.Some? ==>
                  after.row.state == FAILED && after.row.errorDetail == env.invalid && failure == Some(Invalid))
            && (env.invalid.None? && env.broken.Some? ==>
                  after.row.state == FAILED && after.row.errorDetail == env.broken && failure == Some(Broken))
            && (env.invalid.None? && env.broken.None? && key.value !in sys.files ==>
                  after.row.state == FAILED && failure == Some(Broken))
            && (env.invalid.None? && env.broken.None? && key.value in sys.files ==>
                  && after.row.errorDetail == sys.row.errorDetail
                  && (if env.publishFails then after.row.state == READY && failure == Some(PublishFailed)
                      else after.row.state == DOCUMENT_CREATED && failure.None?)))
      && (after.row.state == FAILED ==> after.published == sys.published)
  {
  }

  /** A refused save leaves the session in the stage before it. */
  lemma RefusedStops(tools: Tools, env: Env, sys: System)
    requires sys.row.state != DOCUMENT_CREATED && sys.row.storageKey.Some? && sys.row.storageKey.value != ""
    requires sys.row.storageKey.value in sys.files && env.invalid.None? && env.broken.None? && !env.publishFails
    ensures var (after, failure) := RunPipeline(tools, env, sys);
      && (failure == Some(SaveRefused) <==>
            || VALIDATING in env.refused || PROCESSING in env.refused || READY in env.refused
            || DOCUMENT_CREATED in env.refused)
      && after.row == sys.row.(state :=
           if VALIDATING in env.refused then sys.row.state
           else if PROCESSING in env.refused then VALIDATING
           else if READY in env.refused then PROCESSING
           else if DOCUMENT_CREATED in env.refused then READY
           else DOCUMENT_CREATED)
      && |after.published| == |sys.published|
           + if VALIDATING in env.refused || PROCESSING in env.refused || READY in env.refused then 0 else 1
  {
  }

  /** The stored session points at the latest upload, and storage holds its content. */
  ghost predicate PointsAt(sys: System, file: Option<Stored>) {
    && sys.row.storageKey == (if file.Some? then Some(file.value.key) else None)
    && (file.Some? ==> file.value.key in sys.files && sys.files[file.value.key] == file.value.content)
  }

  lemma {:induction false} RowIsLatest(tools: Tools, sys: System, ops: seq<Op>)
    requires Created(sys)
    ensures SameDeclaration(sys.row, After(tools, sys, ops).row)
    ensures PointsAt(After(tools, sys, ops), LatestUpload(ops))
    decreases |ops|
  {
    if ops != [] {
      var n := |ops| - 1;
      RowIsLatest(tools, sys, ops[..n]);
      if ops[n].Running? {
        PipelineEffect(tools, ops[n].env, After(tools, sys, ops[..n]));
      }
    }
  }

  /** A call at a row that points at `file` adds the event of that file, if it adds one. */
  lemma CallDescribes(tools: Tools, start: Session, sys: System, file: Stored, env: Env)
    requires SameDeclaration(start, sys.row) && PointsAt(sys, Some(file))
    requires RunPipeline(tools, env, sys).0.published != sys.published
    ensures var after := RunPipeline(tools, env, sys).0;
      && |after.published| == |sys.published| + 1 && sys.published <= after.published
      && Describes(tools, start, file, after.published[|sys.published|])
  {
    PipelineEffect(tools, env, sys);
  }

  /** Event `k` went out in call `n`, for the file that was the latest upload then. */
  ghost predicate PublishedAt(tools: Tools, sys: System, ops: seq<Op>, k: nat, n: nat) {
    && n < |ops| && ops[n].Running?
    && |After(tools, sys, ops[..n]).published| == k < |After(tools, sys, ops).published|
    && LatestUpload(ops[..n]).Some?
    && Describes(tools, sys.row, LatestUpload(ops[..n]).value, After(tools, sys, ops).published[k])
  }

  lemma LastCall(tools: Tools, sys: System, ops: seq<Op>)
    requires Created(sys) && ops != []
    ensures var n := |ops| - 1;
            var before, after := After(tools, sys, ops[..n]), After(tools, sys, ops);
            && before.published <= after.published
            && (before.published != after.published ==>
                  |after.published| == |before.published| + 1 && PublishedAt(tools, sys, ops, |before.published|, n))
  {
    var n := |ops| - 1;
    var before := After(tools, sys, ops[..n]);
    RowIsLatest(tools, sys, ops[..n]);
    if ops[n].Running? && Apply(tools, before, ops[n]).published != before.published {
      PipelineEffect(tools, ops[n].env, before);
      CallDescribes(tools, sys.row, before, LatestUpload(ops[..n]).value, ops[n].env);
    } else if ops[n].Running? {
      PipelineEffect(tools, ops[n].env, before);
    }
  }

  /**
   In every run each event went out in one call, and carries the declared data of the session and the key and
   the digest of the file that was the latest upload at that call.
   */
  lemma {:induction false} EventAtPublish(tools: Tools, sys: System, ops: seq<Op>, k: nat) returns (n: nat)
    requires Created(sys) && k < |After(tools, sys, ops).published|
    ensures PublishedAt(tools, sys, ops, k, n)
    decreases |ops|
  {
    LastCall(tools, sys, ops);
    var rest := ops[..|ops| - 1];
    if k < |After(tools, sys, rest).published| {
      n := EventAtPublish(tools, sys, rest, k);
      assert ops[..n] == rest[..n] && ops[n] == rest[n];
    } else {
      n := |ops| - 1;
    }
  }

  /** A finished session's last event is that of its latest upload. */
  lemma {:induction false} FinishedEvent(tools: Tools, sys: System, ops: seq<Op>)
    requires Created(sys) && After(tools, sys, ops).row.state == DOCUMENT_CREATED
    ensures var events := After(tools, sys, ops).published;
            && events != [] && LatestUpload(ops).Some?
            && Describes(tools, sys.row, LatestUpload(ops).value, events[|events| - 1])
    decreases |ops|
  {
    var n := |ops| - 1;
    var before := After(tools, sys, ops[..n]);
    LastCall(tools, sys, ops);
    if before.published == After(tools, sys, ops).published {
      if ops[n].Running? {
        PipelineEffect(tools, ops[n].env, before);
      }
      FinishedEvent(tools, sys, ops[..n]);
    }
  }

  lemma AfterSnoc(tools: Tools, sys: System, ops: seq<Op>, op: Op)
    ensures After(tools, sys, ops + [op]) == Apply(tools, After(tools, sys, ops), op)
  {
    assert (ops + [op])[..|ops|] == ops;
  }

  /** After any run, an accepted upload and a call that meets no failure publish that file and finish the session. */
  lemma UploadIsPublished(tools: Tools, sys: System, ops: seq<Op>, file: Stored, env: Env)
    requires Created(sys) && file.key != ""
    requires env.refused == {} && env.invalid.None? && env.broken.None? && !env.publishFails
    ensures var before := After(tools, sys, ops);
            var after := After(tools, sys, ops + [Uploading(true, Some(file.content), file.key)] + [Running(env)]);
      && after.row.state == DOCUMENT_CREATED && |after.published| == |before.published| + 1
      && before.published <= after.published && Describes(tools, sys.row, file, after.published[|before.published|])
  {
    var before, upload := After(tools, sys, ops), Uploading(true, Some(file.content), file.key);
    RowIsLatest(tools, sys, ops);
    AfterSnoc(tools, sys, ops, upload);
    AfterSnoc(tools, sys, ops + [upload], Running(env));
    var uploaded := Apply(tools, before, upload);
    assert uploaded.row.state == UPLOADED && PointsAt(uploaded, Some(file));
    CallDescribes(tools, sys.row, uploaded, file, env);
  }
}
