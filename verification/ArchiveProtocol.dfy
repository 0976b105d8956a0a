/** The checkpointed push of `Zenodo::push` as a state machine.

    A run of the machine interleaves submissions, the steps of a push, crashes
    and failures after any step, and a deposit server that acts on its own:
    it opens, discards and publishes drafts nobody asked for in this run, which
    is also what a request whose reply was lost looks like.

    `remote` is `remote.json`, `disk` is `index.json`; a crash keeps both.  The
    local copy `st` of the code equals `remote` after every save, so a push in
    progress only carries its index and its stage.  A bucket is named by its
    draft.  `archived` is a history variable: no step reads it. */
module ArchiveProtocol {
  import opened Wrappers
  import opened ProjectIndex

  datatype Kind = SnapshotKind | DeltaKind

  datatype Inflight = Inflight(file: FileName, kind: Kind, baseSeq: nat)

  datatype RemoteState = RemoteState(
    recordId: Option<nat>, draft: Option<nat>, inflight: Option<Inflight>,
    fileSequence: seq<FileName>, deltaCount: nat, lastSeq: nat)

  const FRESH_REMOTE := RemoteState(None, None, None, [], 0, 0)

  /** A draft or a published record, with the records it descends from. */
  datatype Deposit = Deposit(files: map<FileName, FileBody>, ancestors: set<nat>)

  datatype Server = Server(drafts: map<nat, Deposit>, records: map<nat, Deposit>, issued: set<nat>)

  datatype Stage =
    | Opening | Drafted | Named | Uploaded | Recorded | Listed
    | Accepted(record: nat) | Acknowledged(record: nat)

  datatype Run = Run(index: Document, stage: Stage)

  datatype Archived = Archived(doc: Document, sourceBound: nat)

  datatype System = System(
    disk: Document, remote: RemoteState, server: Server,
    run: Option<Run>, archived: Option<Archived>)

  // ----- what each step of the code writes -----

  function KindOf(f: FileName): Option<Kind> {
    match f
    case ManifestFile => None
    case SnapshotFile(_) => Some(SnapshotKind)
    case DeltaFile(_) => Some(DeltaKind)
  }

  function CountKind(files: seq<FileName>, kind: Kind): nat {
    if files == [] then 0
    else CountKind(files[..|files| - 1], kind) + (if KindOf(files[|files| - 1]) == Some(kind) then 1 else 0)
  }

  function NameOf(kind: Kind, n: nat): FileName {
    match kind
    case SnapshotKind => SnapshotFile(n)
    case DeltaKind => DeltaFile(n)
  }

  /** Step 2: resume the payload already named, or choose and freeze one. */
  function PayloadNamed(st: RemoteState, squashAfter: nat): RemoteState {
    if st.inflight.Some? then st
    else
      var isFirst := st.fileSequence == [];
      var squash := !isFirst && st.deltaCount >= squashAfter;
      var kind := if isFirst || squash then SnapshotKind else DeltaKind;
      var inf := Inflight(NameOf(kind, CountKind(st.fileSequence, kind)), kind, st.lastSeq);
      var cleared := if squash then st.(fileSequence := [], deltaCount := 0) else st;
      cleared.(inflight := Some(inf))
  }

  function Payload(inf: Inflight, index: Document): FileBody {
    if inf.kind.DeltaKind? then EncodeDelta(index, inf.baseSeq) else EncodeSnapshot(index)
  }

  predicate EndsIn(files: seq<FileName>, f: FileName) {
    |files| > 0 && files[|files| - 1] == f
  }

  /** Step 3: record the uploaded name, unless a resumed push already did. */
  function PayloadRecorded(st: RemoteState): RemoteState
    requires st.inflight.Some?
  {
    var inf := st.inflight.value;
    if EndsIn(st.fileSequence, inf.file) then st
    else st.(
      fileSequence := st.fileSequence + [inf.file],
      deltaCount := st.deltaCount + (if inf.kind.DeltaKind? then 1 else 0))
  }

  /** Step 4: retire the checkpoints together. */
  function PushRetired(st: RemoteState, record: nat, frontier: nat): RemoteState {
    st.(inflight := None, draft := None, recordId := Some(record), lastSeq := frontier)
  }

  // ----- the deposit server -----

  function DraftOpened(sv: Server, d: nat, files: map<FileName, FileBody>, ancestors: set<nat>): Server {
    sv.(drafts := sv.drafts[d := Deposit(files, ancestors)], issued := sv.issued + {d})
  }

  function FileUploaded(sv: Server, d: nat, name: FileName, body: FileBody): Server
    requires d in sv.drafts
  {
    sv.(drafts := sv.drafts[d := sv.drafts[d].(files := sv.drafts[d].files[name := body])])
  }

  function DraftPublished(sv: Server, d: nat, record: nat): Server
    requires d in sv.drafts
  {
    Server(sv.drafts - {d}, sv.records[record := sv.drafts[d]], sv.issued + {record})
  }

  /** A published record has the draft's id or one never seen before. */
  predicate MayPublish(sv: Server, d: nat, record: nat) {
    d in sv.drafts && record !in sv.records && (record == d || record !in sv.issued)
  }

  /** A draft the client may take up: still open means made from `recordId` or a later version of it. */
  predicate MayAdopt(sv: Server, recordId: Option<nat>, d: nat) {
    d in sv.issued && (d in sv.drafts && recordId.Some? ==> recordId.value in sv.drafts[d].ancestors)
  }

  // ----- events and steps -----

  datatype Event =
    | Submit(s: Submission)
    | EditStatus(id: string, newRecord: Option<nat>, newState: PublishState, newDoi: Option<string>)
    | BeginPush
    | CheckpointDraft(d: nat)
    | NamePayload
    | UploadPayload
    | RecordPayload
    | UploadManifest
    | PublishDraft(record: nat)
    | Acknowledge
    | SaveIndex(proofId: string, doi: Option<string>)
    | Crash
    | ServerOpens(d: nat)
    | ServerVersions(from: nat, d: nat)
    | ServerDiscards(d: nat)
    | ServerPublishes(d: nat, record: nat)

  predicate AtStage(s: System, stage: Stage) {
    s.run.Some? && s.run.value.stage == stage
  }

  predicate Enabled(s: System, e: Event) {
    match e
    case Submit(_) => true
    case EditStatus(_, _, _, _) => true
    case BeginPush => s.run.None?
    case CheckpointDraft(d) => AtStage(s, Opening) &&
        (s.remote.draft == Some(d) || MayAdopt(s.server, s.remote.recordId, d))
    case NamePayload => AtStage(s, Drafted)
    case UploadPayload => AtStage(s, Named) && s.remote.inflight.Some? && s.remote.draft.Some? &&
        s.remote.draft.value in s.server.drafts
    case RecordPayload => AtStage(s, Uploaded) && s.remote.inflight.Some?
    case UploadManifest => AtStage(s, Recorded) && s.remote.draft.Some? && s.remote.draft.value in s.server.drafts
    case PublishDraft(r) => AtStage(s, Listed) && s.remote.draft.Some? && MayPublish(s.server, s.remote.draft.value, r)
    case Acknowledge => s.run.Some? && s.run.value.stage.Accepted? && s.remote.inflight.Some?
    case SaveIndex(_, _) => s.run.Some? && s.run.value.stage.Acknowledged?
    case Crash => true
    case ServerOpens(d) => d !in s.server.issued
    case ServerVersions(from, d) => from in s.server.records && d !in s.server.issued
    case ServerDiscards(d) => d in s.server.drafts
    case ServerPublishes(d, r) => MayPublish(s.server, d, r)
  }

  function At(s: System, stage: Stage): System
    requires s.run.Some?
  {
    s.(run := Some(s.run.value.(stage := stage)))
  }

  /** Which sources a reader can still recover once this push is published. */
  function NextBound(s: System): nat
    requires s.run.Some? && s.remote.inflight.Some?
  {
    var inf := s.remote.inflight.value;
    if inf.kind.SnapshotKind? || s.archived.None? then s.run.value.index.frontier
    else Min(s.archived.value.sourceBound, inf.baseSeq)
  }

  function After(squashAfter: nat, s: System, e: Event): System
    requires Enabled(s, e)
  {
    match e
    case Submit(sub) => s.(disk := Upserted(s.disk, sub))
    case EditStatus(id, r, st, doi) => s.(disk := StatusEdited(s.disk, id, r, st, doi))
    case BeginPush => s.(run := Some(Run(s.disk, Opening)))
    case CheckpointDraft(d) => At(s.(remote := s.remote.(draft := Some(d))), Drafted)
    case NamePayload => At(s.(remote := PayloadNamed(s.remote, squashAfter)), Named)
    case UploadPayload =>
      var inf := s.remote.inflight.value;
      At(s.(server := FileUploaded(s.server, s.remote.draft.value, inf.file, Payload(inf, s.run.value.index))),
          Uploaded)
    case RecordPayload => At(s.(remote := PayloadRecorded(s.remote)), Recorded)
    case UploadManifest =>
      var body := Manifest(s.remote.fileSequence, s.run.value.index.frontier);
      At(s.(server := FileUploaded(s.server, s.remote.draft.value, ManifestFile, body)), Listed)
    case PublishDraft(r) => At(s.(server := DraftPublished(s.server, s.remote.draft.value, r)), Accepted(r))
    case Acknowledge =>
      var r := s.run.value.stage.record;
      At(s.(remote := PushRetired(s.remote, r, s.run.value.index.frontier),
            archived := Some(Archived(s.run.value.index, NextBound(s)))), Acknowledged(r))
    case SaveIndex(id, doi) =>
      s.(disk := StatusEdited(s.run.value.index, id, Some(s.run.value.stage.record), Published, doi), run := None)
    case Crash => s.(run := None)
    case ServerOpens(d) => s.(server := DraftOpened(s.server, d, map[], {}))
    case ServerVersions(from, d) =>
      var rec := s.server.records[from];
      s.(server := DraftOpened(s.server, d, rec.files, rec.ancestors + {from}))
    case ServerDiscards(d) => s.(server := s.server.(drafts := s.server.drafts - {d}))
    case ServerPublishes(d, r) => s.(server := DraftPublished(s.server, d, r))
  }

  ghost predicate Step(squashAfter: nat, s: System, e: Event, t: System) {
    Enabled(s, e) && t == After(squashAfter, s, e)
  }

  ghost predicate Initial(s: System) {
    WellFormed(s.disk) && s.remote == FRESH_REMOTE && ServerOk(s.server) && s.run.None? && s.archived.None?
  }

  ghost predicate ValidRun(squashAfter: nat, states: seq<System>, events: seq<Event>) {
    && |states| == |events| + 1
    && forall i :: 0 <= i < |events| ==> Step(squashAfter, states[i], events[i], states[i + 1])
  }

  // ----- the reader -----

  predicate HoldsAll(files: map<FileName, FileBody>, names: seq<FileName>) {
    forall i :: 0 <= i < |names| ==> names[i] in files
  }

  function Contents(files: map<FileName, FileBody>, names: seq<FileName>): seq<FileBody>
    requires HoldsAll(files, names)
  {
    seq(|names|, i requires 0 <= i < |names| => files[names[i]])
  }

  ghost predicate NoDuplicates(names: seq<FileName>) {
    forall i, j :: 0 <= i < j < |names| ==> names[i] != names[j]
  }

  /** The deposit holds its manifest and every file the manifest names, and
      replaying them in order recovers the archived document. */
  ghost predicate Faithful(d: Deposit, a: Archived, squashAfter: nat) {
    && ManifestFile in d.files && d.files[ManifestFile].Manifest?
    && var names := d.files[ManifestFile].fileSequence;
       && d.files[ManifestFile].lastFrontier == a.doc.frontier
       && HoldsAll(d.files, names)
       && Recovers(Contents(d.files, names), a.doc, a.sourceBound)
       && NoDuplicates(names) && 1 <= |names| <= squashAfter + 1
  }

  /** `pull`: manifest, then every file it names, then replay. */
  method Pull(records: map<nat, Deposit>, record: nat) returns (r: Result<Document>)
    ensures r.Ok? <==>
      && record in records
      && ManifestFile in records[record].files && records[record].files[ManifestFile].Manifest?
      && var files, names := records[record].files, records[record].files[ManifestFile].fileSequence;
         HoldsAll(files, names) && forall b :: b in Contents(files, names) ==> !b.Bytes?
    ensures r.Ok? ==> Replays(Contents(records[record].files, records[record].files[ManifestFile].fileSequence),
        r.value)
  {
    if record !in records { return Err("record fetch failed"); }
    var links := records[record].files;
    if ManifestFile !in links { return Err("manifest.json is not in the record"); }
    if !links[ManifestFile].Manifest? { return Err("manifest has no file_sequence"); }
    var names := links[ManifestFile].fileSequence;
    var files := [];
    for i := 0 to |names|
      invariant |files| == i
      invariant forall k :: 0 <= k < i ==> names[k] in links && files[k] == links[names[k]]
    {
      if names[i] !in links { return Err("listed in manifest but missing from the record"); }
      files := files + [links[names[i]]];
    }
    assert files == Contents(links, names);
    r := Replay(files);
  }

  /** A faithful record always pulls, and gives the archived document back. */
  lemma FaithfulPulls(d: Deposit, a: Archived, squashAfter: nat, out: Document)
    requires Faithful(d, a, squashAfter)
    ensures var files := Contents(d.files, d.files[ManifestFile].fileSequence);
            && (forall b :: b in files ==> !b.Bytes?)
            && (Replays(files, out) ==> out.frontier == a.doc.frontier && Mirrors(out.proofs, a.doc, a.sourceBound))
  {
  }

  // ----- the invariant -----

  /** The recorded names other than the payload still in flight. */
  function Kept(st: RemoteState): seq<FileName> {
    if st.inflight.Some? && EndsIn(st.fileSequence, st.inflight.value.file)
    then st.fileSequence[..|st.fileSequence| - 1]
    else st.fileSequence
  }

  /** delta_0, .. delta_{n-1} */
  function DeltaNames(n: nat): (names: seq<FileName>)
    ensures |names| == n && forall i :: 0 <= i < n ==> names[i] == DeltaFile(i)
  {
    if n == 0 then [] else DeltaNames(n - 1) + [DeltaFile(n - 1)]
  }

  function Chain(k: nat, deltas: nat): seq<FileName> {
    [SnapshotFile(k)] + DeltaNames(deltas)
  }

  ghost predicate IsChain(names: seq<FileName>, deltas: nat) {
    exists k :: k <= 1 && names == Chain(k, deltas)
  }

  /** Every checkpoint: snapshot_k, delta_0, .. delta_{d-1}, then the payload in flight. */
  ghost predicate ShapeOk(st: RemoteState, squashAfter: nat) {
    if st.inflight.None? then
      if st.fileSequence == [] then st.recordId.None? && st.deltaCount == 0
      else st.recordId.Some? && IsChain(st.fileSequence, st.deltaCount) && st.deltaCount <= squashAfter
    else
      var inf := st.inflight.value;
      var recorded := st.fileSequence == Kept(st) + [inf.file];
      && (recorded || st.fileSequence == Kept(st))
      && match inf.kind
         case SnapshotKind => Kept(st) == [] && st.deltaCount == 0 &&
             (inf.file == SnapshotFile(0) || inf.file == SnapshotFile(1))
         case DeltaKind =>
           inf.file.DeltaFile? && inf.file.n < squashAfter && IsChain(Kept(st), inf.file.n) && st.recordId.Some? &&
           st.deltaCount == (if recorded then inf.file.n + 1 else inf.file.n) && inf.baseSeq == st.lastSeq
  }

  ghost predicate ServerOk(sv: Server) {
    && sv.drafts.Keys <= sv.issued && sv.records.Keys <= sv.issued
    && (forall d :: d in sv.drafts ==> sv.drafts[d].ancestors <= sv.records.Keys)
    && (forall r :: r in sv.records ==> sv.records[r].ancestors <= sv.records.Keys)
  }

  /** Same files, apart from the manifest and the payload in flight. */
  ghost predicate AgreeApart(f: map<FileName, FileBody>, g: map<FileName, FileBody>, inflight: Option<Inflight>) {
    forall n :: n != ManifestFile && !(inflight.Some? && n == inflight.value.file) ==>
      (n in f <==> n in g) && (n in f ==> f[n] == g[n])
  }

  ghost predicate Descends(sv: Server, r: nat, inflight: Option<Inflight>)
    requires r in sv.records
  {
    && (forall d :: d in sv.drafts && r in sv.drafts[d].ancestors ==>
        AgreeApart(sv.drafts[d].files, sv.records[r].files, inflight))
    && (forall d :: d in sv.records && r in sv.records[d].ancestors ==>
        AgreeApart(sv.records[d].files, sv.records[r].files, inflight))
  }

  /** The record pulls back to `a`, and so do the files a next delta will build on. */
  ghost predicate Readable(d: Deposit, a: Archived, kept: seq<FileName>, squashAfter: nat) {
    && Faithful(d, a, squashAfter)
    && (kept != [] ==> HoldsAll(d.files, kept) && Recovers(Contents(d.files, kept), a.doc, a.sourceBound))
  }

  ghost predicate ArchiveOk(s: System, squashAfter: nat) {
    match s.remote.recordId
    case None => s.archived.None? && Kept(s.remote) == []
    case Some(r) =>
      && r in s.server.records && s.archived.Some?
      && s.archived.value.doc.frontier == s.remote.lastSeq && WellFormed(s.archived.value.doc)
      && Readable(s.server.records[r], s.archived.value, Kept(s.remote), squashAfter)
  }

  ghost predicate LineageOk(s: System) {
    s.remote.recordId.Some? && s.remote.recordId.value in s.server.records ==>
      Descends(s.server, s.remote.recordId.value, s.remote.inflight)
  }

  ghost predicate DraftOk(s: System) {
    s.remote.draft.Some? ==> MayAdopt(s.server, s.remote.recordId, s.remote.draft.value)
  }

  predicate HasPayload(files: map<FileName, FileBody>, inf: Inflight, index: Document) {
    inf.file in files && files[inf.file] == Payload(inf, index)
  }

  predicate HasManifest(files: map<FileName, FileBody>, st: RemoteState, index: Document) {
    ManifestFile in files && files[ManifestFile] == Manifest(st.fileSequence, index.frontier)
  }

  ghost predicate StageOk(s: System) {
    s.run.Some? ==>
      var st, index := s.remote, s.run.value.index;
      match s.run.value.stage
      case Opening => true
      case Drafted => st.draft.Some?
      case Named => st.draft.Some? && st.inflight.Some?
      case Uploaded =>
        st.draft.Some? && st.inflight.Some? && (st.draft.value in s.server.drafts ==>
          HasPayload(s.server.drafts[st.draft.value].files, st.inflight.value, index))
      case Recorded =>
        st.draft.Some? && st.inflight.Some? && EndsIn(st.fileSequence, st.inflight.value.file) &&
        (st.draft.value in s.server.drafts ==>
          HasPayload(s.server.drafts[st.draft.value].files, st.inflight.value, index))
      case Listed =>
        st.draft.Some? && st.inflight.Some? && EndsIn(st.fileSequence, st.inflight.value.file) &&
        (st.draft.value in s.server.drafts ==>
          HasPayload(s.server.drafts[st.draft.value].files, st.inflight.value, index) &&
          HasManifest(s.server.drafts[st.draft.value].files, st, index))
      case Accepted(r) =>
        && st.inflight.Some? && EndsIn(st.fileSequence, st.inflight.value.file) && r in s.server.records
        && HasPayload(s.server.records[r].files, st.inflight.value, index)
        && HasManifest(s.server.records[r].files, st, index)
        && (st.recordId.Some? ==> st.recordId.value in s.server.records[r].ancestors)
        && Descends(s.server, r, None)
      case Acknowledged(r) => st.recordId == Some(r) && s.archived.Some? && s.archived.value.doc == index
  }

  /** The checkpoints, the server and the push in progress agree with each other, and the last
      acknowledged record is readable; nothing is said about the index on disk. */
  ghost predicate Consistent(s: System, squashAfter: nat) {
    WellFormed(s.disk) && ServerOk(s.server) && ShapeOk(s.remote, squashAfter) &&
    ArchiveOk(s, squashAfter) && LineageOk(s) && (s.run.Some? ==> WellFormed(s.run.value.index)) &&
    DraftOk(s) && StageOk(s)
  }

  /** The index only grows: from the last archived one to the one being pushed to the one on disk. */
  ghost predicate Grows(s: System) {
    && (s.archived.Some? ==> Evolves(s.archived.value.doc, s.disk))
    && (s.run.Some? ==>
          && Evolves(s.run.value.index, s.disk)
          && (s.archived.Some? ==> Evolves(s.archived.value.doc, s.run.value.index)))
  }

  ghost predicate Inv(s: System, squashAfter: nat) { Consistent(s, squashAfter) && Grows(s) }

  /** The payload in flight is a snapshot, or the index continues the last archived one. */
  ghost predicate Sound(s: System) {
    s.run.Some? && s.remote.inflight.Some? &&
    (s.remote.inflight.value.kind.SnapshotKind? ||
     (s.archived.Some? && Continues(s.archived.value.doc, s.archived.value.sourceBound, s.run.value.index)))
  }
}
