/** Every reachable state of the archive protocol keeps the last acknowledged
    record readable, and every acknowledged push is faithful. */
module ArchiveSafety {
  import opened Wrappers
  import opened ProjectIndex
  import opened ArchiveProtocol

  // ----- names -----

  lemma {:induction false} CountInDeltas(n: nat)
    ensures CountKind(DeltaNames(n), DeltaKind) == n
    ensures CountKind(DeltaNames(n), SnapshotKind) == 0
  {
    if n > 0 {
      var s := DeltaNames(n);
      assert s[..n - 1] == DeltaNames(n - 1);
      CountInDeltas(n - 1);
    }
  }

  lemma {:induction false} CountAppend(a: seq<FileName>, b: seq<FileName>, kind: Kind)
    ensures CountKind(a + b, kind) == CountKind(a, kind) + CountKind(b, kind)
  {
    if b == [] {
      assert a + b == a;
    } else {
      assert (a + b)[..|a + b| - 1] == a + b[..|b| - 1];
      CountAppend(a, b[..|b| - 1], kind);
    }
  }

  lemma CountInChain(k: nat, n: nat)
    ensures CountKind(Chain(k, n), DeltaKind) == n && CountKind(Chain(k, n), SnapshotKind) == 1
  {
    CountInDeltas(n);
    var head, tail := [SnapshotFile(k)], DeltaNames(n);
    assert head[..0] == [] && Chain(k, n) == head + tail;
    CountAppend(head, tail, DeltaKind);
    CountAppend(head, tail, SnapshotKind);
  }

  lemma ChainExtends(k: nat, n: nat)
    ensures Chain(k, n) + [DeltaFile(n)] == Chain(k, n + 1)
  {
  }

  /** Naming keeps the shape, and never picks a name already in the sequence. */
  lemma NamingKeepsShape(st: RemoteState, squashAfter: nat)
    requires ShapeOk(st, squashAfter)
    ensures ShapeOk(PayloadNamed(st, squashAfter), squashAfter)
    ensures Kept(PayloadNamed(st, squashAfter)) == [] || Kept(PayloadNamed(st, squashAfter)) == Kept(st)
    ensures st.inflight.None? ==>
        PayloadNamed(st, squashAfter).inflight.value.file !in PayloadNamed(st, squashAfter).fileSequence
  {
    if st.inflight.None? && st.fileSequence != [] {
      var k :| k <= 1 && st.fileSequence == Chain(k, st.deltaCount);
      CountInChain(k, st.deltaCount);
    }
  }

  /** Names are fresh within one sequence only: every squash writes snapshot_1.bin again. */
  lemma SquashReusesItsName(st: RemoteState, squashAfter: nat)
    requires ShapeOk(st, squashAfter) && st.inflight.None? && st.fileSequence != []
    ensures st.deltaCount >= squashAfter <==> PayloadNamed(st, squashAfter).inflight.value.file == SnapshotFile(1)
    ensures st.deltaCount < squashAfter <==>
        PayloadNamed(st, squashAfter).inflight.value.file == DeltaFile(st.deltaCount)
  {
    var k :| k <= 1 && st.fileSequence == Chain(k, st.deltaCount);
    CountInChain(k, st.deltaCount);
  }

  /** A first push and a push after squash_after deltas send everything; any other sends exactly
      the proofs past the last acknowledged frontier. */
  lemma PushSendsWhatIsNew(st: RemoteState, squashAfter: nat, index: Document)
    requires st.inflight.None?
    ensures var body := Payload(PayloadNamed(st, squashAfter).inflight.value, index);
      && (body.Snapshot? || body.Delta?)
      && (st.fileSequence == [] || st.deltaCount >= squashAfter <==> body == Snapshot(index))
      && (body.Delta? ==>
            && body.baseSeq == st.lastSeq && body.frontier == index.frontier
            && forall id :: id in body.changed <==> id in index.proofs && index.proofs[id].seqNo > st.lastSeq)
  {
  }

  lemma RecordingKeepsShape(st: RemoteState, squashAfter: nat)
    requires ShapeOk(st, squashAfter) && st.inflight.Some?
    ensures ShapeOk(PayloadRecorded(st), squashAfter)
    ensures Kept(PayloadRecorded(st)) == Kept(st)
    ensures PayloadRecorded(st).fileSequence == Kept(st) + [st.inflight.value.file]
  {
    var file := st.inflight.value.file;
    if EndsIn(st.fileSequence, file) {
      assert st.fileSequence == st.fileSequence[..|st.fileSequence| - 1] + [file];
    } else {
      assert (st.fileSequence + [file])[..|st.fileSequence|] == st.fileSequence;
    }
  }

  lemma ChainIsDistinct(names: seq<FileName>, n: nat)
    requires IsChain(names, n)
    ensures NoDuplicates(names) && |names| == n + 1 && ManifestFile !in names
    ensures forall i :: n <= i ==> DeltaFile(i) !in names
  {
  }

  /** With the payload recorded, the sequence is a chain of at most squashAfter + 1 distinct names. */
  lemma RecordedIsChain(st: RemoteState, squashAfter: nat)
    requires ShapeOk(st, squashAfter) && st.inflight.Some? && EndsIn(st.fileSequence, st.inflight.value.file)
    ensures st.fileSequence == Kept(st) + [st.inflight.value.file]
    ensures IsChain(st.fileSequence, st.deltaCount) && st.deltaCount <= squashAfter
    ensures st.inflight.value.file !in Kept(st) && ManifestFile !in Kept(st)
  {
    var file := st.inflight.value.file;
    if st.inflight.value.kind.DeltaKind? {
      var k :| k <= 1 && Kept(st) == Chain(k, file.n);
      ChainIsDistinct(Kept(st), file.n);
      ChainExtends(k, file.n);
    } else {
      assert st.fileSequence == Chain(file.n, 0);
    }
  }

  // ----- the server -----

  lemma OpenedDescends(sv: Server, d: nat, files: map<FileName, FileBody>, ancestors: set<nat>, r: nat,
          inf: Option<Inflight>)
    requires ServerOk(sv) && r in sv.records && Descends(sv, r, inf)
    requires r in ancestors ==> AgreeApart(files, sv.records[r].files, inf)
    ensures Descends(DraftOpened(sv, d, files, ancestors), r, inf)
  {
  }

  lemma VersionAgrees(sv: Server, from: nat, r: nat, inf: Option<Inflight>)
    requires r in sv.records && from in sv.records && Descends(sv, r, inf)
    requires r in sv.records[from].ancestors + {from}
    ensures AgreeApart(sv.records[from].files, sv.records[r].files, inf)
  {
  }

  lemma PublishedDescends(sv: Server, d: nat, record: nat, r: nat, inf: Option<Inflight>)
    requires ServerOk(sv) && r in sv.records && Descends(sv, r, inf) && MayPublish(sv, d, record)
    ensures Descends(DraftPublished(sv, d, record), r, inf)
  {
  }

  lemma UploadedDescends(sv: Server, d: nat, name: FileName, body: FileBody, r: nat, inf: Option<Inflight>)
    requires ServerOk(sv) && r in sv.records && Descends(sv, r, inf) && d in sv.drafts
    requires name == ManifestFile || (inf.Some? && name == inf.value.file)
    ensures Descends(FileUploaded(sv, d, name, body), r, inf)
  {
    var t := FileUploaded(sv, d, name, body);
    if r in sv.drafts[d].ancestors {
      assert AgreeApart(t.drafts[d].files, t.records[r].files, inf);
    }
  }

  /** A step that touches only the server, and never a published record. */
  lemma ServerChange(q: nat, s: System, sv: Server)
    requires Consistent(s, q) && ServerOk(sv)
    requires forall r :: r in s.server.records ==> r in sv.records && sv.records[r] == s.server.records[r]
    requires s.server.issued <= sv.issued
    requires forall r, inf :: r in s.server.records && Descends(s.server, r, inf) ==> Descends(sv, r, inf)
    requires s.remote.draft.Some? && s.remote.draft.value in sv.drafts ==>
      s.remote.draft.value in s.server.drafts && sv.drafts[s.remote.draft.value] ==
          s.server.drafts[s.remote.draft.value]
    ensures Consistent(s.(server := sv), q)
  {
    hide Readable, Descends, Evolves, WellFormed, ServerOk, ShapeOk;
  }

  lemma ServerStepKeepsConsistent(q: nat, s: System, e: Event)
    requires Consistent(s, q) && Enabled(s, e)
    requires e.ServerOpens? || e.ServerVersions? || e.ServerDiscards? || e.ServerPublishes?
    ensures Consistent(After(q, s, e), q)
  {
    hide Readable, Evolves, WellFormed, ShapeOk, StageOk, AgreeApart;
    var sv := After(q, s, e).server;
    forall r, inf | r in s.server.records && Descends(s.server, r, inf)
      ensures Descends(sv, r, inf)
    {
      match e {
        case ServerOpens(d) => OpenedDescends(s.server, d, map[], {}, r, inf);
        case ServerVersions(from, d) =>
          var rec := s.server.records[from];
          if r in rec.ancestors + {from} { VersionAgrees(s.server, from, r, inf); }
          OpenedDescends(s.server, d, rec.files, rec.ancestors + {from}, r, inf);
        case ServerPublishes(d, rec) => PublishedDescends(s.server, d, rec, r, inf);
        case _ =>
      }
    }
    ServerChange(q, s, sv);
  }

  // ----- the index and the local checkpoints -----

  lemma IndexStepKeepsConsistent(q: nat, s: System, e: Event)
    requires Consistent(s, q) && Enabled(s, e)
    requires e.Submit? || e.EditStatus?
    ensures Consistent(After(q, s, e), q)
  {
    hide Readable, Evolves, WellFormed, ShapeOk, Descends, ServerOk, Upserted, StatusEdited;
    var t := After(q, s, e);
    if e.Submit? { UpsertEvolves(s.disk, e.s); }
    else { StatusEditEvolves(s.disk, e.id, e.newRecord, e.newState, e.newDoi); }
    assert WellFormed(t.disk);
  }

  lemma SaveKeepsConsistent(q: nat, s: System, e: Event)
    requires Consistent(s, q) && Enabled(s, e) && e.SaveIndex?
    ensures Consistent(After(q, s, e), q)
  {
    hide Readable, ShapeOk, Descends, ServerOk, Evolves, WellFormed, StatusEdited;
    var t := After(q, s, e);
    StatusEditEvolves(s.run.value.index, e.proofId, Some(s.run.value.stage.record), Published, e.doi);
    assert WellFormed(t.disk);
  }

  lemma LocalStepKeepsConsistent(q: nat, s: System, e: Event)
    requires Consistent(s, q) && Enabled(s, e)
    requires e.BeginPush? || e.CheckpointDraft? || e.Crash?
    ensures Consistent(After(q, s, e), q)
  {
    if e.BeginPush? { BeginKeepsConsistent(q, s, e); }
    else if e.Crash? { CrashKeepsConsistent(q, s, e); }
    else { CheckpointKeepsConsistent(q, s, e); }
  }

  lemma BeginKeepsConsistent(q: nat, s: System, e: Event)
    requires Consistent(s, q) && Enabled(s, e) && e.BeginPush?
    ensures Consistent(After(q, s, e), q)
  {
    EvolvesReflexive(s.disk);
    hide Readable, Evolves, WellFormed, Descends, ServerOk, ShapeOk, Kept, MayAdopt;
  }

  lemma CrashKeepsConsistent(q: nat, s: System, e: Event)
    requires Consistent(s, q) && Enabled(s, e) && e.Crash?
    ensures Consistent(After(q, s, e), q)
  {
    hide Readable, Evolves, WellFormed, Descends, ServerOk, ShapeOk, Kept, MayAdopt;
  }

  lemma CheckpointKeepsConsistent(q: nat, s: System, e: Event)
    requires Consistent(s, q) && Enabled(s, e) && e.CheckpointDraft?
    ensures Consistent(After(q, s, e), q)
  {
    var t := After(q, s, e);
    DraftIsNoShape(s.remote, t.remote, q);
    hide Readable, Evolves, WellFormed, Descends, ServerOk, ShapeOk, Kept;
  }

  /** The checkpointed draft plays no part in the shape of the sequence. */
  lemma DraftIsNoShape(a: RemoteState, b: RemoteState, q: nat)
    requires b == a.(draft := b.draft)
    ensures ShapeOk(a, q) <==> ShapeOk(b, q)
    ensures Kept(a) == Kept(b)
  {
  }

  lemma NamingKeepsConsistent(q: nat, s: System, e: Event)
    requires Consistent(s, q) && Enabled(s, e) && e.NamePayload?
    ensures Consistent(After(q, s, e), q)
  {
    hide Recovers, Faithful, Evolves, WellFormed, ServerOk;
    NamingKeepsShape(s.remote, q);
    hide ShapeOk, Kept;
  }

  lemma RecordingKeepsConsistent(q: nat, s: System, e: Event)
    requires Consistent(s, q) && Enabled(s, e) && e.RecordPayload?
    ensures Consistent(After(q, s, e), q)
  {
    hide Readable, Evolves, WellFormed, ServerOk, Descends;
    RecordingKeepsShape(s.remote, q);
    hide ShapeOk, Kept;
  }

  lemma UploadKeepsConsistent(q: nat, s: System, e: Event)
    requires Consistent(s, q) && Enabled(s, e) && (e.UploadPayload? || e.UploadManifest?)
    ensures Consistent(After(q, s, e), q)
  {
    hide Readable, Evolves, WellFormed, AgreeApart, Kept;
    assert s.remote.inflight.Some? ==> s.remote.inflight.value.file != ManifestFile;
    hide ShapeOk;
    var t := After(q, s, e);
    var d := s.remote.draft.value;
    var name, body := if e.UploadPayload? then s.remote.inflight.value.file else ManifestFile,
                      t.server.drafts[d].files[if e.UploadPayload? then s.remote.inflight.value.file else ManifestFile];
    assert t.server == FileUploaded(s.server, d, name, body);
    if s.remote.recordId.Some? {
      UploadedDescends(s.server, d, name, body, s.remote.recordId.value, s.remote.inflight);
    }
    assert ServerOk(t.server);
    hide Descends, ServerOk;
    assert StageOk(t);
  }

  lemma PublishKeepsConsistent(q: nat, s: System, e: Event)
    requires Consistent(s, q) && Enabled(s, e) && e.PublishDraft?
    ensures Consistent(After(q, s, e), q)
  {
    hide Readable, Evolves, WellFormed, AgreeApart, Kept, ShapeOk;
    var t := After(q, s, e);
    if s.remote.recordId.Some? {
      PublishedDescends(s.server, s.remote.draft.value, e.record, s.remote.recordId.value, s.remote.inflight);
    }
    assert Descends(t.server, e.record, None);
    assert ServerOk(t.server);
    hide Descends, ServerOk;
  }

  // ----- the acknowledged record -----

  lemma ContentsAgree(f: map<FileName, FileBody>, g: map<FileName, FileBody>, inf: Inflight, kept: seq<FileName>)
    requires AgreeApart(f, g, Some(inf)) && HoldsAll(g, kept)
    requires inf.file !in kept && ManifestFile !in kept
    ensures HoldsAll(f, kept) && Contents(f, kept) == Contents(g, kept)
  {
    forall i | 0 <= i < |kept|
      ensures kept[i] in f && f[kept[i]] == g[kept[i]]
    {
      assert kept[i] in kept;
    }
  }

  lemma ContentsExtend(f: map<FileName, FileBody>, kept: seq<FileName>, file: FileName)
    requires HoldsAll(f, kept) && file in f
    ensures HoldsAll(f, kept + [file]) && Contents(f, kept + [file]) == Contents(f, kept) + [f[file]]
  {
  }

  lemma SnapshotReplays(files: map<FileName, FileBody>, inf: Inflight, index: Document)
    requires inf.kind.SnapshotKind? && HasPayload(files, inf, index) && WellFormed(index)
    ensures HoldsAll(files, [inf.file]) && Recovers(Contents(files, [inf.file]), index, index.frontier)
  {
    hide Recovers, WellFormed;
    assert Contents(files, [inf.file]) == [EncodeSnapshot(index)];
    SnapshotRecovers(index);
  }

  lemma DeltaReplays(files: map<FileName, FileBody>, base: map<FileName, FileBody>, inf: Inflight, kept: seq<FileName>,
                     a: Archived, index: Document)
    requires inf.kind.DeltaKind? && HasPayload(files, inf, index) && inf.file !in kept && ManifestFile !in kept
    requires AgreeApart(files, base, Some(inf)) && HoldsAll(base, kept)
    requires Recovers(Contents(base, kept), a.doc, a.sourceBound)
    requires WellFormed(index) && inf.baseSeq == a.doc.frontier
    ensures HoldsAll(files, kept + [inf.file])
    ensures Recovers(Contents(files, kept + [inf.file]), index, Min(a.sourceBound, inf.baseSeq))
       <==> Continues(a.doc, a.sourceBound, index)
  {
    hide Recovers, Continues, AgreeApart, WellFormed;
    ContentsAgree(files, base, inf, kept);
    ContentsExtend(files, kept, inf.file);
    DeltaRecoversIff(Contents(files, kept), a.doc, a.sourceBound, index);
  }

  /** What the invariant says about a delta that was just accepted. */
  lemma AcceptedDelta(q: nat, s: System, record: nat)
    requires Consistent(s, q) && AtStage(s, Accepted(record)) && s.remote.inflight.Some? &&
        s.remote.inflight.value.kind.DeltaKind?
    ensures s.remote.recordId.Some? && s.archived.Some? && s.remote.recordId.value in s.server.records
    ensures record in s.server.records
    ensures AgreeApart(s.server.records[record].files, s.server.records[s.remote.recordId.value].files,
        s.remote.inflight)
    ensures HoldsAll(s.server.records[s.remote.recordId.value].files, Kept(s.remote))
    ensures Recovers(Contents(s.server.records[s.remote.recordId.value].files, Kept(s.remote)),
                     s.archived.value.doc, s.archived.value.sourceBound)
    ensures s.remote.inflight.value.baseSeq == s.archived.value.doc.frontier
  {
    hide Recovers, AgreeApart, ServerOk, WellFormed, HasPayload, HasManifest, HoldsAll, Contents, DraftOk, Faithful;
    ChainIsNotEmpty(s.remote, q);
  }

  lemma ChainIsNotEmpty(st: RemoteState, q: nat)
    requires ShapeOk(st, q) && st.inflight.Some? && st.inflight.value.kind.DeltaKind?
    ensures Kept(st) != []
  {
  }

  lemma AcceptedRecord(q: nat, s: System, record: nat)
    requires Consistent(s, q) && AtStage(s, Accepted(record))
    ensures s.run.Some? && s.remote.inflight.Some? && record in s.server.records && WellFormed(s.run.value.index)
    ensures ShapeOk(s.remote, q) && EndsIn(s.remote.fileSequence, s.remote.inflight.value.file)
    ensures HasPayload(s.server.records[record].files, s.remote.inflight.value, s.run.value.index)
    ensures HasManifest(s.server.records[record].files, s.remote, s.run.value.index)
  {
    hide ShapeOk, ArchiveOk, LineageOk, DraftOk, ServerOk, WellFormed, HasPayload, HasManifest, Descends, Evolves;
  }

  lemma FirstIsAlone(st: RemoteState, q: nat)
    requires ShapeOk(st, q) && st.inflight.Some? && st.inflight.value.kind.SnapshotKind?
    ensures Kept(st) == []
  {
  }

  /** The record just accepted pulls back to the pushed index exactly when the push is sound. */
  lemma AcceptedIsFaithfulIff(q: nat, s: System, record: nat)
    requires Consistent(s, q) && AtStage(s, Accepted(record))
    ensures s.remote.inflight.Some? && record in s.server.records
    ensures Faithful(s.server.records[record], Archived(s.run.value.index, NextBound(s)), q) <==> Sound(s)
  {
    hide Consistent, Recovers, WellFormed, HasPayload, HoldsAll, Contents, IsChain, NoDuplicates, Continues, AgreeApart,
      Kept, ShapeOk;
    AcceptedRecord(q, s, record);
    var st, index := s.remote, s.run.value.index;
    var inf, files := st.inflight.value, s.server.records[record].files;
    RecordedIsChain(st, q);
    ChainIsDistinct(st.fileSequence, st.deltaCount);
    if inf.kind.SnapshotKind? {
      FirstIsAlone(st, q);
      assert st.fileSequence == [inf.file];
      SnapshotReplays(files, inf, index);
    } else {
      AcceptedDelta(q, s, record);
      DeltaReplays(files, s.server.records[st.recordId.value].files, inf, Kept(st), s.archived.value, index);
    }
  }

  /** An index that only grows is always pushed soundly. */
  lemma GrowingIsSound(q: nat, s: System, record: nat)
    requires Inv(s, q) && AtStage(s, Accepted(record))
    ensures Sound(s)
  {
    hide Continues, Evolves, Faithful, Readable, WellFormed, ServerOk, ShapeOk, LineageOk;
    if s.archived.Some? { EvolvesContinues(s.archived.value.doc, s.archived.value.sourceBound, s.run.value.index); }
    if s.remote.inflight.value.kind.DeltaKind? {
      hide Inv, Sound;
      DeltaHasArchive(q, s, record);
    }
  }

  lemma DeltaHasArchive(q: nat, s: System, record: nat)
    requires Consistent(s, q) && AtStage(s, Accepted(record)) && s.remote.inflight.Some? &&
        s.remote.inflight.value.kind.DeltaKind?
    ensures s.archived.Some?
  {
    hide Consistent;
    AcceptedDelta(q, s, record);
  }

  lemma AcceptedIsFaithful(q: nat, s: System, record: nat)
    requires Inv(s, q) && AtStage(s, Accepted(record))
    ensures Faithful(s.server.records[record], Archived(s.run.value.index, NextBound(s)), q)
  {
    GrowingIsSound(q, s, record);
    hide Consistent, Sound, Grows;
    AcceptedIsFaithfulIff(q, s, record);
  }

  lemma RetiringKeepsShape(st: RemoteState, q: nat, record: nat, frontier: nat)
    requires ShapeOk(st, q) && st.inflight.Some? && EndsIn(st.fileSequence, st.inflight.value.file)
    ensures ShapeOk(PushRetired(st, record, frontier), q)
    ensures Kept(PushRetired(st, record, frontier)) == st.fileSequence
  {
    RecordedIsChain(st, q);
  }

  lemma FaithfulIsReadable(d: Deposit, a: Archived, q: nat)
    requires Faithful(d, a, q)
    ensures Readable(d, a, d.files[ManifestFile].fileSequence, q)
  {
  }

  lemma AcknowledgeKeepsConsistent(q: nat, s: System, e: Event)
    requires Consistent(s, q) && Enabled(s, e) && e.Acknowledge? && Sound(s)
    ensures Consistent(After(q, s, e), q)
    ensures var t := After(q, s, e); Faithful(t.server.records[s.run.value.stage.record], t.archived.value, q)
  {
    hide Recovers, ServerOk, Descends, Readable, Faithful, ShapeOk, WellFormed, Kept, NextBound, Sound;
    var record := s.run.value.stage.record;
    AcceptedIsFaithfulIff(q, s, record);
    FaithfulIsReadable(s.server.records[record], Archived(s.run.value.index, NextBound(s)), q);
    RetiringKeepsShape(s.remote, q, record, s.run.value.index.frontier);
  }

  lemma EvolvesReflexive(d: Document)
    ensures Evolves(d, d)
  {
  }

  /** Every step keeps the archive consistent; only the last save of a push asks for a sound one. */
  lemma StepKeepsConsistent(q: nat, s: System, e: Event)
    requires Consistent(s, q) && Enabled(s, e) && (e.Acknowledge? ==> Sound(s))
    ensures Consistent(After(q, s, e), q)
  {
    hide Consistent, After, Enabled, Sound;
    match e {
      case Submit(_) => IndexStepKeepsConsistent(q, s, e);
      case EditStatus(_, _, _, _) => IndexStepKeepsConsistent(q, s, e);
      case BeginPush => LocalStepKeepsConsistent(q, s, e);
      case CheckpointDraft(_) => LocalStepKeepsConsistent(q, s, e);
      case NamePayload => NamingKeepsConsistent(q, s, e);
      case UploadPayload => UploadKeepsConsistent(q, s, e);
      case RecordPayload => RecordingKeepsConsistent(q, s, e);
      case UploadManifest => UploadKeepsConsistent(q, s, e);
      case PublishDraft(_) => PublishKeepsConsistent(q, s, e);
      case Acknowledge => AcknowledgeKeepsConsistent(q, s, e);
      case SaveIndex(_, _) => SaveKeepsConsistent(q, s, e);
      case Crash => LocalStepKeepsConsistent(q, s, e);
      case ServerOpens(_) => ServerStepKeepsConsistent(q, s, e);
      case ServerVersions(_, _) => ServerStepKeepsConsistent(q, s, e);
      case ServerDiscards(_) => ServerStepKeepsConsistent(q, s, e);
      case ServerPublishes(_, _) => ServerStepKeepsConsistent(q, s, e);
    }
  }

  /** Saving the worker's copy may drop an interleaved submission, but never archived content. */
  lemma SaveKeepsGrowing(q: nat, s: System, e: Event)
    requires Inv(s, q) && Enabled(s, e) && e.SaveIndex?
    ensures Grows(After(q, s, e))
  {
    hide ArchiveOk, LineageOk, ServerOk, ShapeOk, Evolves, WellFormed, StatusEdited;
    var t := After(q, s, e);
    StatusEditEvolves(s.run.value.index, e.proofId, Some(s.run.value.stage.record), Published, e.doi);
    EvolvesTransitive(s.archived.value.doc, s.run.value.index, t.disk);
  }

  /** Apart from the save of a push, the index on disk only grows. */
  lemma DiskEvolves(q: nat, s: System, e: Event)
    requires WellFormed(s.disk) && Enabled(s, e) && !e.SaveIndex?
    ensures Evolves(s.disk, After(q, s, e).disk)
  {
    hide WellFormed, Evolves, Upserted, StatusEdited, PayloadNamed, PayloadRecorded, Payload;
    EvolvesReflexive(s.disk);
    if e.Submit? { UpsertEvolves(s.disk, e.s); }
    if e.EditStatus? { StatusEditEvolves(s.disk, e.id, e.newRecord, e.newState, e.newDoi); }
  }

  /** Where the index being pushed and the archived one come from. */
  lemma StepSources(q: nat, s: System, e: Event)
    requires Enabled(s, e) && !e.SaveIndex?
    ensures var t := After(q, s, e);
      && (t.run.Some? ==> (s.run.Some? && t.run.value.index == s.run.value.index) ||
                          (e.BeginPush? && t.run.value.index == s.disk))
      && (t.archived == s.archived || (e.Acknowledge? && s.run.Some? && t.run.Some? &&
                                       t.archived.Some? && t.archived.value.doc == s.run.value.index))
      && (e.BeginPush? || e.Acknowledge? ==> t.disk == s.disk)
  {
    hide StatusEdited, Upserted, PayloadNamed, PayloadRecorded, Payload;
  }

  lemma InvDisk(q: nat, s: System)
    requires Inv(s, q)
    ensures WellFormed(s.disk)
  {
    hide WellFormed;
  }

  lemma StepKeepsGrowing(q: nat, s: System, e: Event)
    requires Inv(s, q) && Enabled(s, e)
    ensures Grows(After(q, s, e))
  {
    hide Consistent, Evolves, WellFormed, After, Enabled;
    if e.SaveIndex? {
      SaveKeepsGrowing(q, s, e);
    } else {
      InvDisk(q, s);
      DiskEvolves(q, s, e);
      StepSources(q, s, e);
      EvolvesReflexive(s.disk);
      var t := After(q, s, e);
      if s.run.Some? {
        EvolvesReflexive(s.run.value.index);
        EvolvesTransitive(s.run.value.index, s.disk, t.disk);
      }
      if s.archived.Some? { EvolvesTransitive(s.archived.value.doc, s.disk, t.disk); }
    }
  }

  lemma StepKeepsInv(q: nat, s: System, e: Event)
    requires Inv(s, q) && Enabled(s, e)
    ensures Inv(After(q, s, e), q)
  {
    if e.Acknowledge? { GrowingIsSound(q, s, s.run.value.stage.record); }
    StepKeepsGrowing(q, s, e);
    hide Consistent, Grows, After, Enabled, Sound;
    StepKeepsConsistent(q, s, e);
  }

  /** Retiring the checkpoints together keeps the invariant and records a faithful archive. */
  lemma AcknowledgeKeepsInv(q: nat, s: System, e: Event)
    requires Inv(s, q) && Enabled(s, e) && e.Acknowledge?
    ensures Inv(After(q, s, e), q)
    ensures var t := After(q, s, e); Faithful(t.server.records[s.run.value.stage.record], t.archived.value, q)
  {
    GrowingIsSound(q, s, s.run.value.stage.record);
    StepKeepsInv(q, s, e);
    hide Consistent, Grows, Faithful, Sound;
    AcknowledgeKeepsConsistent(q, s, e);
  }

  // ----- whole runs -----

  /** Every state of every run. */
  lemma {:induction false} RunKeepsInv(q: nat, states: seq<System>, events: seq<Event>, i: nat)
    requires ValidRun(q, states, events) && Initial(states[0]) && i < |states|
    ensures Inv(states[i], q)
  {
    if i > 0 {
      RunKeepsInv(q, states, events, i - 1);
      assert Step(q, states[i - 1], events[i - 1], states[i]);
      hide Inv, After;
      StepKeepsInv(q, states[i - 1], events[i - 1]);
    }
  }

  /** Published records never change and never disappear. */
  lemma {:induction false} RecordsArePermanent(q: nat, states: seq<System>, events: seq<Event>, i: nat, j: nat,
          record: nat)
    requires ValidRun(q, states, events) && i <= j < |states| && record in states[i].server.records
    ensures record in states[j].server.records && states[j].server.records[record] == states[i].server.records[record]
    decreases j
  {
    if i < j {
      RecordsArePermanent(q, states, events, i, j - 1, record);
      assert Step(q, states[j - 1], events[j - 1], states[j]);
    }
  }

  /** Whenever a push is acknowledged, in any run, and for ever after: the record it
      returned holds every file its manifest names, and replaying them in order gives
      the keys, the frontier and the identity fields of the index that was pushed. */
  lemma AcknowledgedPushIsRecoverable(q: nat, states: seq<System>, events: seq<Event>, i: nat, j: nat)
    requires ValidRun(q, states, events) && Initial(states[0])
    requires i < |events| && events[i].Acknowledge? && i < j < |states|
    ensures states[i].run.Some? && states[i].run.value.stage.Accepted?
    ensures var record, index := states[i].run.value.stage.record, states[i].run.value.index;
            && record in states[j].server.records
            && states[i].remote.inflight.Some?
            && Faithful(states[j].server.records[record], Archived(index, NextBound(states[i])), q)
  {
    RunKeepsInv(q, states, events, i);
    assert Step(q, states[i], events[i], states[i + 1]);
    var record := states[i].run.value.stage.record;
    AcknowledgeKeepsInv(q, states[i], events[i]);
    assert Faithful(states[i + 1].server.records[record], states[i + 1].archived.value, q);
    hide Inv, Faithful, ValidRun;
    RecordsArePermanent(q, states, events, i + 1, j, record);
  }

  /** In every reachable checkpoint the last acknowledged record pulls back to the last
      archived index, which the index on disk still extends. */
  lemma LastRecordStaysReadable(q: nat, states: seq<System>, events: seq<Event>, i: nat)
    requires ValidRun(q, states, events) && Initial(states[0]) && i < |states|
    requires states[i].remote.recordId.Some?
    ensures states[i].archived.Some? && states[i].remote.recordId.value in states[i].server.records
    ensures Faithful(states[i].server.records[states[i].remote.recordId.value], states[i].archived.value, q)
    ensures Evolves(states[i].archived.value.doc, states[i].disk)
  {
    RunKeepsInv(q, states, events, i);
  }

  /** The recorded names, with the payload in flight last. */
  function NamesInUse(st: RemoteState): seq<FileName> {
    if st.inflight.Some? && !EndsIn(st.fileSequence, st.inflight.value.file)
    then st.fileSequence + [st.inflight.value.file]
    else st.fileSequence
  }

  /** The sequence with the payload in flight is snapshot_k, delta_0, .. with no name
      twice; `delta_count` counts the recorded deltas; at most squash_after + 1 files. */
  lemma CheckpointShape(q: nat, states: seq<System>, events: seq<Event>, i: nat)
    requires ValidRun(q, states, events) && Initial(states[0]) && i < |states|
    ensures var st := states[i].remote;
            var names := NamesInUse(st);
            && (names == [] || exists n: nat :: n <= q && IsChain(names, n) && |names| == n + 1)
            && NoDuplicates(names) && |names| <= q + 1
            && st.deltaCount == CountKind(st.fileSequence, DeltaKind)
  {
    RunKeepsInv(q, states, events, i);
    assert ShapeOk(states[i].remote, q);
    hide Inv, ValidRun, Initial, ShapeOk, CountKind, NamesInUse, IsChain, NoDuplicates;
    ShapeCounts(states[i].remote, q);
    var _ := ShapeOfNames(states[i].remote, q);
  }

  lemma ShapeOfNames(st: RemoteState, q: nat) returns (n: nat)
    requires ShapeOk(st, q)
    ensures var names := NamesInUse(st);
            && (names == [] || (n <= q && IsChain(names, n) && |names| == n + 1))
            && NoDuplicates(names) && |names| <= q + 1
  {
    n := 0;
    if st.inflight.Some? {
      RecordingKeepsShape(st, q);
      var rec := PayloadRecorded(st);
      RecordedNames(st);
      hide ShapeOk, PayloadRecorded, NamesInUse, IsChain, NoDuplicates, Kept;
      RecordedIsChain(rec, q);
      n := rec.deltaCount;
      ChainIsDistinct(rec.fileSequence, n);
    } else if st.fileSequence != [] {
      n := st.deltaCount;
      ChainIsDistinct(st.fileSequence, n);
    }
  }

  lemma RecordedNames(st: RemoteState)
    requires st.inflight.Some?
    ensures var rec := PayloadRecorded(st);
            && NamesInUse(st) == rec.fileSequence && rec.inflight == st.inflight
            && EndsIn(rec.fileSequence, st.inflight.value.file)
  {
  }

  lemma ShapeCounts(st: RemoteState, q: nat)
    requires ShapeOk(st, q)
    ensures st.deltaCount == CountKind(st.fileSequence, DeltaKind)
  {
    if st.inflight.Some? && EndsIn(st.fileSequence, st.inflight.value.file) {
      RecordedIsChain(st, q);
    }
    if st.fileSequence != [] {
      var k :| k <= 1 && st.fileSequence == Chain(k, st.deltaCount);
      CountInChain(k, st.deltaCount);
    }
  }
}
