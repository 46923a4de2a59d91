/** The handler that turns a published ingestion event into a document and its first version. */
module Documents {
  import opened Wrappers
  import opened Envelope
  import opened Registry
  import opened EventBus
  import opened EventBusTables
  import opened Ingestion
  import opened IngestionRuns

  datatype DocumentType = DocumentType(tenant: string, name: string)

  datatype Document = Document(
    tenant: string, title: Json, documentType: Option<nat>, createdBy: Option<string>, owner: Option<string>)

  /** `document` is the position of the version's document in the table of documents. */
  datatype Version = Version(
    tenant: string,
    document: nat,
    number: nat,
    filename: Json,
    mimeType: Json,
    size: Json,
    checksum: Json,
    extension: Json,
    storageKey: Json,
    createdBy: Option<string>)

  datatype Store = Store(documents: seq<Document>, versions: seq<Version>)

  /** The document types that exist, and how names are compared. */
  datatype Setting = Setting(types: map<nat, DocumentType>, fold: string -> string)

  datatype Error =
    NoSuchType | ManyTypes | MissingTitle | NoTenant | BadTitle | DuplicateTitle | MissingFilename | VersionRefused

  // The widths of the text columns, and the largest size.
  const TITLE_WIDTH := 255
  const FILENAME_WIDTH := 255
  const MIME_WIDTH := 100
  const CHECKSUM_WIDTH := 64
  const EXTENSION_WIDTH := 20
  const KEY_WIDTH := 500
  const MAX_SIZE := 0x7fff_ffff_ffff_ffff

  function Get(p: Payload, key: string): Json {
    if key in p then p[key] else Null
  }

  function Matches(env: Setting, tenant: string, name: string): set<nat> {
    set i | i in env.types && env.types[i].tenant == tenant && env.fold(env.types[i].name) == env.fold(name)
  }

  /** The type that the event names, if it names one and has a tenant to look in. */
  function TypeOf(env: Setting, e: EventEnvelope): Result<Option<nat>, Error> {
    var name := Get(e.payload, "document_type");
    if !name.Text? || name.text == "" || e.tenantId.None? || e.tenantId.value == "" then Success(None)
    else
      var matching := Matches(env, e.tenantId.value, name.text);
      if |matching| == 0 then Failure(NoSuchType)
      else if |matching| > 1 then Failure(ManyTypes)
      else Success(Some(Only(matching)))
  }

  /** Type `i` is one of the tenant's, of that name. */
  predicate Matching(env: Setting, tenant: string, name: string, i: nat) {
    i in env.types && env.types[i].tenant == tenant && env.fold(env.types[i].name) == env.fold(name)
  }

  /** What a document of this tenant, whose upload declared this type name, is to be classified as. */
  ghost predicate Classifies(env: Setting, tenant: string, name: Option<string>, documentType: Option<nat>) {
    if name.None? || name.value == "" || tenant == "" then documentType.None?
    else
      && documentType.Some? && Matching(env, tenant, name.value, documentType.value)
      && forall j :: Matching(env, tenant, name.value, j) ==> j == documentType.value
  }

  /** The lookup finds a type exactly when there is one to classify the document as, and then it is that one. */
  lemma TypeOfIff(env: Setting, e: EventEnvelope, tenant: string, name: Option<string>)
    requires e.tenantId == Some(tenant)
    requires Get(e.payload, "document_type") == if name.Some? then Text(name.value) else Null
    ensures TypeOf(env, e).Success? <==> exists t :: Classifies(env, tenant, name, t)
    ensures forall t :: Classifies(env, tenant, name, t) ==> TypeOf(env, e) == Success(t)
  {
    if name.Some? && name.value != "" && tenant != "" {
      var matching := Matches(env, tenant, name.value);
      forall t | Classifies(env, tenant, name, t) ensures matching == {t.value} {
        assert forall j :: j in matching <==> Matching(env, tenant, name.value, j);
      }
      if TypeOf(env, e).Success? {
        var t := TypeOf(env, e).value;
        assert IsOnly(matching, t.value);
        assert forall j :: Matching(env, tenant, name.value, j) ==> j in matching;
        assert t.value in matching && Classifies(env, tenant, name, t);
      }
    } else {
      assert Classifies(env, tenant, name, None);
    }
  }

  /** The lookup's error tells whether no type or more than one matches. */
  lemma TypeErrorIsTrue(env: Setting, e: EventEnvelope, tenant: string, name: string)
    requires e.tenantId == Some(tenant) && Get(e.payload, "document_type") == Text(name)
    ensures TypeOf(env, e) == Failure(NoSuchType) ==> forall i :: !Matching(env, tenant, name, i)
    ensures TypeOf(env, e) == Failure(ManyTypes) ==>
      exists i, j :: i != j && Matching(env, tenant, name, i) && Matching(env, tenant, name, j)
    ensures TypeOf(env, e).Failure? ==> TypeOf(env, e).error == NoSuchType || TypeOf(env, e).error == ManyTypes
  {
    var matching := Matches(env, tenant, name);
    assert forall i :: Matching(env, tenant, name, i) ==> i in matching;
    if TypeOf(env, e) == Failure(ManyTypes) {
      var i :| i in matching;
      assert |matching - {i}| > 0;
      var j :| j in matching - {i};
      assert Matching(env, tenant, name, i) && Matching(env, tenant, name, j);
    }
  }

  ghost predicate IsOnly(s: set<nat>, x: nat) {
    s == {x}
  }

  function Only(s: set<nat>): (x: nat)
    requires |s| == 1
    ensures IsOnly(s, x)
  {
    var x :| x in s;
    OneElement(s, x);
    assert forall y :: y in s ==> y == x;
    x
  }

  lemma OneElement(s: set<nat>, x: nat)
    requires |s| == 1 && x in s
    ensures s == {x}
  {
    assert |s - {x}| == 0;
  }

  /** Titles are unique within a tenant. */
  predicate TitleTaken(st: Store, tenant: string, title: Json) {
    exists i :: 0 <= i < |st.documents| && st.documents[i].tenant == tenant && st.documents[i].title == title
  }

  function DocumentOf(e: EventEnvelope, documentType: Option<nat>): Document
    requires e.tenantId.Some? && "title" in e.payload
  {
    Document(e.tenantId.value, e.payload["title"], documentType, e.actorId, e.actorId)
  }

  function VersionOf(e: EventEnvelope, document: nat): Version
    requires e.tenantId.Some? && "filename" in e.payload
  {
    Version(e.tenantId.value, document, 1, e.payload["filename"], Get(e.payload, "mime_type"), Get(e.payload, "size"),
            Get(e.payload, "checksum"), Get(e.payload, "extension"), Get(e.payload, "storage_key"), e.actorId)
  }

  predicate TextFits(j: Json, width: nat) {
    j.Text? && |j.text| <= width
  }

  /** The database takes the row: every value that is there fits its column. */
  predicate VersionFits(v: Version) {
    && TextFits(v.filename, FILENAME_WIDTH)
    && (v.mimeType.Null? || TextFits(v.mimeType, MIME_WIDTH))
    && (v.size.Null? || (v.size.Number? && 0 <= v.size.number <= MAX_SIZE))
    && (v.checksum.Null? || TextFits(v.checksum, CHECKSUM_WIDTH))
    && (v.extension.Null? || TextFits(v.extension, EXTENSION_WIDTH))
    && (v.storageKey.Null? || TextFits(v.storageKey, KEY_WIDTH))
  }

  /** The document is written first, and stays when the version cannot be written. */
  function Handle(env: Setting, st: Store, e: EventEnvelope): (Store, Option<Error>) {
    var documentType := TypeOf(env, e);
    if documentType.Failure? then (st, Some(documentType.error))
    else if "title" !in e.payload then (st, Some(MissingTitle))
    else if e.tenantId.None? then (st, Some(NoTenant))
    else if !TextFits(e.payload["title"], TITLE_WIDTH) then (st, Some(BadTitle))
    else if TitleTaken(st, e.tenantId.value, e.payload["title"]) then (st, Some(DuplicateTitle))
    else
      var written := st.(documents := st.documents + [DocumentOf(e, documentType.value)]);
      if "filename" !in e.payload then (written, Some(MissingFilename))
      else if !VersionFits(VersionOf(e, |st.documents|)) then (written, Some(VersionRefused))
      else (written.(versions := written.versions + [VersionOf(e, |st.documents|)]), None)
  }

  class DocumentTables {
    var st: Store

    constructor ()
      ensures st == Store([], [])
    {
      st := Store([], []);
    }

    method HandleDocumentCreated(env: Setting, e: EventEnvelope) returns (error: Option<Error>)
      modifies this
      ensures (st, error) == Handle(env, old(st), e)
    {
      var documentType: Option<nat> := None;
      var name := Get(e.payload, "document_type");
      if name.Text? && name.text != "" && e.tenantId.Some? && e.tenantId.value != "" {
        var matching := Matches(env, e.tenantId.value, name.text);
        if |matching| == 0 {
          return Some(NoSuchType);
        }
        if |matching| > 1 {
          return Some(ManyTypes);
        }
        documentType := Some(Only(matching));
      }
      if "title" !in e.payload {
        return Some(MissingTitle);
      }
      if e.tenantId.None? {
        return Some(NoTenant);
      }
      if !TextFits(e.payload["title"], TITLE_WIDTH) {
        return Some(BadTitle);
      }
      if TitleTaken(st, e.tenantId.value, e.payload["title"]) {
        return Some(DuplicateTitle);
      }
      var document := |st.documents|;
      st := st.(documents := st.documents + [DocumentOf(e, documentType)]);
      if "filename" !in e.payload {
        return Some(MissingFilename);
      }
      if !VersionFits(VersionOf(e, document)) {
        return Some(VersionRefused);
      }
      st := st.(versions := st.versions + [VersionOf(e, document)]);
      return None;
    }
  }

  // ---- What is kept ----

  /** Titles differ within each tenant, and every version is the first of a document of its own, of the same tenant. */
  ghost predicate Consistent(st: Store) {
    && (forall i, j :: 0 <= i < j < |st.documents| && st.documents[i].tenant == st.documents[j].tenant
          ==> st.documents[i].title != st.documents[j].title)
    && (forall k :: 0 <= k < |st.versions| ==> VersionOk(st, st.versions[k]))
    && (forall k, l :: 0 <= k < l < |st.versions| ==> st.versions[k].document != st.versions[l].document)
  }

  ghost predicate VersionOk(st: Store, v: Version) {
    v.number == 1 && v.document < |st.documents| && v.tenant == st.documents[v.document].tenant
  }

  lemma HandleKeepsConsistent(env: Setting, st: Store, e: EventEnvelope)
    requires Consistent(st)
    ensures Consistent(Handle(env, st, e).0)
  {
    var after := Handle(env, st, e).0;
    assert forall k :: 0 <= k < |st.versions| ==> VersionOk(st, st.versions[k]);
  }

  /** A call that fails and yet has written something. */
  predicate HalfDone(env: Setting, st: Store, e: EventEnvelope) {
    Handle(env, st, e).1.Some? && Handle(env, st, e).0 != st
  }

  /** A document with the event's tenant and title is in the tables. */
  predicate Blocked(st: Store, e: EventEnvelope) {
    e.tenantId.Some? && "title" in e.payload && TitleTaken(st, e.tenantId.value, e.payload["title"])
  }

  /** What a half-done call has written is one document, with no version. */
  lemma HalfDoneWrites(env: Setting, st: Store, e: EventEnvelope)
    requires Consistent(st) && HalfDone(env, st, e)
    ensures var st' := Handle(env, st, e).0;
      && st'.versions == st.versions && |st'.documents| == |st.documents| + 1 && st.documents <= st'.documents
      && Blocked(st', e) && forall v :: v in st'.versions ==> v.document != |st.documents|
  {
    var st' := Handle(env, st, e).0;
    var d := st'.documents[|st.documents|];
    assert d.tenant == e.tenantId.value && d.title == e.payload["title"];
    forall v | v in st'.versions ensures v.document != |st.documents| {
      var k :| 0 <= k < |st.versions| && st.versions[k] == v;
      assert VersionOk(st, st.versions[k]);
    }
  }

  /** While a document of that title is there, every call for the event fails and changes nothing. */
  lemma BlockedFails(env: Setting, st: Store, e: EventEnvelope)
    requires Blocked(st, e)
    ensures Handle(env, st, e).0 == st && Handle(env, st, e).1.Some?
  {
  }

  // ---- From the upload to the rows ----

  /** The document and the version that a file of a session is due. */
  ghost predicate RowsFor(tools: Tools, env: Setting, s: Session, file: Stored, d: Document, v: Version,
                          document: nat) {
    && Classifies(env, s.tenant, s.documentType, d.documentType)
    && d.tenant == s.tenant && d.title == Text(s.title)
    && v.tenant == s.tenant && v.document == document && v.number == 1
    && v.filename == Text(s.filename) && v.mimeType == Text(s.mimeType) && v.size == Number(s.size)
    && v.checksum == Text(tools.sha(file.content))
    && v.extension == TextOrNull(OrNone(tools.lower(Suffix(s.filename))))
    && v.storageKey == Text(file.key)
    && d.createdBy == d.owner == v.createdBy == OrNone(OrEmpty(s.createdBy))
  }

  lemma HandledEvent(env: Setting, st: Store, e: EventEnvelope)
    requires Handle(env, st, e).1.None?
    ensures e.tenantId.Some? && "title" in e.payload && "filename" in e.payload && TypeOf(env, e).Success?
    ensures Handle(env, st, e).0 == Store(st.documents + [DocumentOf(e, TypeOf(env, e).value)],
                                          st.versions + [VersionOf(e, |st.documents|)])
  {
  }

  lemma EventFields(tools: Tools, start: Session, file: Stored, e: EventEnvelope)
    requires Describes(tools, start, file, e)
    ensures e.tenantId == Some(start.tenant) && "title" in e.payload && "filename" in e.payload
    ensures Get(e.payload, "document_type") == if start.documentType.Some? then Text(start.documentType.value) else Null
  {
  }

  lemma EventRows(tools: Tools, env: Setting, start: Session, file: Stored, e: EventEnvelope,
                  documentType: Option<nat>, n: nat)
    requires Describes(tools, start, file, e) && Classifies(env, start.tenant, start.documentType, documentType)
    ensures e.tenantId == Some(start.tenant) && "title" in e.payload && "filename" in e.payload
    ensures RowsFor(tools, env, start, file, DocumentOf(e, documentType), VersionOf(e, n), n)
  {
  }

  /** The tables after a success: one row more in each, and those are the rows due. */
  ghost predicate RowsWritten(tools: Tools, env: Setting, s: Session, file: Stored, st: Store, after: Store) {
    && |after.documents| == |st.documents| + 1 && |after.versions| == |st.versions| + 1
    && st.documents <= after.documents && st.versions <= after.versions
    && RowsFor(tools, env, s, file, after.documents[|st.documents|], after.versions[|st.versions|], |st.documents|)
  }

  lemma HandledRows(tools: Tools, start: Session, file: Stored, e: EventEnvelope, env: Setting, st: Store)
    requires Describes(tools, start, file, e) && Handle(env, st, e).1.None?
    ensures RowsWritten(tools, env, start, file, st, Handle(env, st, e).0)
  {
    HandledEvent(env, st, e);
    EventFields(tools, start, file, e);
    TypeOfIff(env, e, start.tenant, start.documentType);
    EventRows(tools, env, start, file, e, TypeOf(env, e).value, |st.documents|);
  }

  /** Queue entry `i` is for the message that was written for `e`. */
  ghost predicate MessageOf(c: Config, b: Bus, i: nat, e: EventEnvelope) {
    i < |b.pool| && b.pool[i].id.message < |b.stream| && b.stream[b.pool[i].id.message] == ToFields(c.codec, e)
  }

  /** A worker reads from its task exactly the envelope that was published. */
  lemma TaskCarries(c: Config, b: Bus, i: nat, e: EventEnvelope)
    requires Inverse(c.codec) && DistinctNames(c.registry) && Reachable(c, b) && MessageOf(c, b, i, e) && Canonical(e)
    ensures FromFields(c.codec, b.pool[i].fields) == Success(e)
  {
    ReachableTask(c, b, i);
    RoundTripIff(c.codec, e);
  }

  /**
   End to end: over any run of uploads and pipeline calls and any run of the bus, a worker whose task is for one of
   the session's events hands the handler that very event; and when the handler succeeds, it has written a document
   and a version with the session's declared data, and with the storage key and the digest of the whole content of
   the file that was the latest upload when the event was published, in call `n`.
   */
  lemma UploadToRows(
    tools: Tools, sys: System, ops: seq<Op>, k: nat, c: Config, b: Bus, i: nat, e: EventEnvelope,
    env: Setting, st: Store)
    returns (n: nat)
    requires Created(sys) && sys.row.tenant != ""
    requires k < |After(tools, sys, ops).published| && e == After(tools, sys, ops).published[k]
    requires Inverse(c.codec) && DistinctNames(c.registry) && Reachable(c, b) && MessageOf(c, b, i, e)
    ensures FromFields(c.codec, b.pool[i].fields) == Success(e)
    ensures PublishedAt(tools, sys, ops, k, n)
    ensures Handle(env, st, e).1.None? ==>
      RowsWritten(tools, env, sys.row, LatestUpload(ops[..n]).value, st, Handle(env, st, e).0)
  {
    n := EventAtPublish(tools, sys, ops, k);
    TaskCarries(c, b, i, e);
    if Handle(env, st, e).1.None? {
      HandledRows(tools, sys.row, LatestUpload(ops[..n]).value, e, env, st);
    }
  }

  // ---- When a failing call leaves something behind ----

  /** The session's own columns, the storage key and the digest are within the widths of the columns they go to. */
  predicate SessionFits(tools: Tools, s: Session, file: Stored) {
    && |s.title| <= TITLE_WIDTH && |s.filename| <= FILENAME_WIDTH && |s.mimeType| <= MIME_WIDTH && s.size <= MAX_SIZE
    && |file.key| <= KEY_WIDTH && |tools.sha(file.content)| <= CHECKSUM_WIDTH
  }

  predicate TitleFree(st: Store, s: Session) {
    forall d :: d in st.documents ==> d.tenant != s.tenant || d.title != Text(s.title)
  }

  function ExtensionWidth(tools: Tools, s: Session): nat {
    |tools.lower(Suffix(s.filename))|
  }

  /**
   For every session and every state of the tables: a first call for its event leaves a document without a version
   exactly when its type is found, its title is free and its extension is wider than the column; it succeeds
   exactly when the first two hold and the extension fits.
   */
  lemma HalfDoneIff(tools: Tools, start: Session, file: Stored, e: EventEnvelope, env: Setting, st: Store)
    requires Describes(tools, start, file, e) && SessionFits(tools, start, file)
    ensures HalfDone(env, st, e) <==>
            && (exists t :: Classifies(env, start.tenant, start.documentType, t)) && TitleFree(st, start)
            && ExtensionWidth(tools, start) > EXTENSION_WIDTH
    ensures Handle(env, st, e).1.None? <==>
            && (exists t :: Classifies(env, start.tenant, start.documentType, t)) && TitleFree(st, start)
            && ExtensionWidth(tools, start) <= EXTENSION_WIDTH
  {
    EventFields(tools, start, file, e);
    TypeOfIff(env, e, start.tenant, start.documentType);
  }

  /** Some setting in which the type that the event names, if any, is found. */
  lemma TypeCanBeFound(e: EventEnvelope) returns (env: Setting)
    ensures TypeOf(env, e).Success?
  {
    var name := Get(e.payload, "document_type");
    if name.Text? && e.tenantId.Some? {
      env := Setting(map[0 := DocumentType(e.tenantId.value, name.text)], x => x);
      assert Matches(env, e.tenantId.value, name.text) == {0};
    } else {
      env := Setting(map[], x => x);
    }
  }

  /** No call for the event can ever leave a document without a version, exactly when the extension fits its column. */
  lemma SafeIffExtensionFits(tools: Tools, start: Session, file: Stored, e: EventEnvelope)
    requires Describes(tools, start, file, e) && SessionFits(tools, start, file)
    ensures (forall env, st :: !HalfDone(env, st, e)) <==> ExtensionWidth(tools, start) <= EXTENSION_WIDTH
  {
    forall env, st ensures HalfDone(env, st, e) ==> ExtensionWidth(tools, start) > EXTENSION_WIDTH {
      HalfDoneIff(tools, start, file, e, env, st);
    }
    var env := TypeCanBeFound(e);
    HalfDoneIff(tools, start, file, e, env, Store([], []));
  }

  const LONG_NAME := "a.extensionoftwentyones"

  lemma LongSuffix()
    ensures Suffix(LONG_NAME) == LONG_NAME[1..] && |Suffix(LONG_NAME)| == 22
  {
    assert LONG_NAME[1] == '.' && LONG_NAME[0] == 'a';
    assert forall k :: 1 < k < |LONG_NAME| ==> LONG_NAME[k] != '.';
    assert forall k :: 0 <= k < |LONG_NAME| ==> LONG_NAME[k] != '/';
  }

  /** An uploaded file and a call that meets no failure publish one event, of that file. */
  lemma PublishedOnce(tools: Tools, sys: System, file: Stored, call: Env) returns (ops: seq<Op>)
    requires Created(sys) && file.key != ""
    requires call.refused == {} && call.invalid.None? && call.broken.None? && !call.publishFails
    ensures var after := After(tools, sys, ops);
            && after.row.state == DOCUMENT_CREATED && |after.published| == 1
            && Describes(tools, sys.row, file, after.published[0])
  {
    ops := [Uploading(true, Some(file.content), file.key), Running(call)];
    assert ops[..1][..0] == [] && After(tools, sys, []) == sys;
    assert After(tools, sys, ops[..1]) == Apply(tools, sys, ops[0]);
  }

  /** Too long an extension passes the whole pipeline, and the handler then leaves a document without a version. */
  lemma LongExtensionIsHalfDone(tools: Tools, sys: System, file: Stored, call: Env, env: Setting)
    returns (ops: seq<Op>)
    requires Created(sys) && sys.row.documentType.None? && file.key != ""
    requires SessionFits(tools, sys.row, file) && ExtensionWidth(tools, sys.row) > EXTENSION_WIDTH
    requires call.refused == {} && call.invalid.None? && call.broken.None? && !call.publishFails
    ensures var after := After(tools, sys, ops);
            && after.row.state == DOCUMENT_CREATED && |after.published| == 1
            && HalfDone(env, Store([], []), after.published[0])
  {
    ops := PublishedOnce(tools, sys, file, call);
    HalfDoneIff(tools, sys.row, file, After(tools, sys, ops).published[0], env, Store([], []));
  }

  /** A file name with such an extension. */
  lemma LongSuffixIsHalfDone(tools: Tools, sys: System, file: Stored, call: Env, env: Setting)
    returns (ops: seq<Op>)
    requires Created(sys) && sys.row.filename == LONG_NAME && sys.row.documentType.None? && file.key != ""
    requires SessionFits(tools, sys.row, file) && tools.lower(LONG_NAME[1..]) == LONG_NAME[1..]
    requires call.refused == {} && call.invalid.None? && call.broken.None? && !call.publishFails
    ensures var after := After(tools, sys, ops);
            && after.row.state == DOCUMENT_CREATED && |after.published| == 1
            && HalfDone(env, Store([], []), after.published[0])
  {
    LongSuffix();
    ops := LongExtensionIsHalfDone(tools, sys, file, call, env);
  }
}
