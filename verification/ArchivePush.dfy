/** `Zenodo::push` and the publish worker as they run, proved to follow the
    archive protocol: every request may fail, lose its reply, or race with the
    server, and the log of what happened is a run of the state machine.  What the
    server and the file system answer is an input the client cannot choose. */
module ArchivePush {
  import opened Wrappers
  import opened ProjectIndex
  import opened ArchiveProtocol
  import opened ArchiveSafety

  const MAX_ATTEMPTS: nat := 5

  datatype PushOutcome = PushOutcome(recordId: nat, file: FileName, kind: Kind, files: seq<FileName>,
      doi: Option<string>)

  /** The answer to a PUT or POST: nothing happened; it happened, and the reply was lost; or it happened. */
  datatype Answer = NotDone | Unseen | Done

  /** The answer to the request for a draft: an error; draft `d` opened, for a new version as a copy of
      the record `from`; or the draft `d` of that record that is open already. */
  datatype DraftAnswer = NoDraft | Opens(d: nat, from: nat, seen: bool) | HandsOut(d: nat)

  /** What one attempt is answered, in the order in which it asks.  `answering` are the drafts a
      GET succeeds for. */
  datatype Replies = Replies(
    answering: set<nat>, draft: DraftAnswer, draftSaved: bool, nameSaved: bool, payload: Answer, recordSaved: bool,
    manifest: Answer, publication: Answer, record: nat, doi: Option<string>, retired: bool,
    indexSaved: bool, audited: bool)

  /** The server can give this answer. */
  predicate CanMake(sv: Server, recordId: Option<nat>, a: DraftAnswer) {
    match a
    case NoDraft => false
    case Opens(d, from, _) =>
      d !in sv.issued && (recordId.Some? ==>
          from in sv.records && (from == recordId.value || recordId.value in sv.records[from].ancestors))
    case HandsOut(d) =>
      recordId.Some? && d in sv.issued && d in sv.drafts && recordId.value in sv.drafts[d].ancestors
  }

  /** The client learns of a draft. */
  predicate Seen(a: DraftAnswer) { a.HandsOut? || (a.Opens? && a.seen) }

  /** The checkpointed draft is there. */
  predicate Reuses(st: RemoteState, a: Replies) { st.draft.Some? && st.draft.value in a.answering }

  /** The draft a push goes on with: the checkpointed one when it is there, otherwise the one it is given. */
  function DraftFor(st: RemoteState, a: Replies): Option<nat> {
    if Reuses(st, a) then st.draft else if a.draft.NoDraft? then None else Some(a.draft.d)
  }

  /** Every request of the push and every save is answered with success. */
  predicate AllSucceed(st: RemoteState, a: Replies) {
    (Reuses(st, a) || Seen(a.draft)) && a.draftSaved && AllDone(a)
  }

  predicate AllDone(a: Replies) {
    a.nameSaved && a.payload.Done? && a.recordSaved && a.manifest.Done? && a.publication.Done? && a.retired
  }

  /** .. though the server was in no position to: it had no such draft to give, or the draft was
      closed, or the record's number was taken. */
  predicate OutOfReach(before: RemoteState, st: RemoteState, sv: Server, a: Replies) {
    || (!Reuses(before, a) && st == before && !CanMake(sv, before.recordId, a.draft))
    || (st.draft.Some? && st.draft == DraftFor(before, a) && !MayPublish(sv, st.draft.value, a.record))
  }

  datatype Trace = Trace(states: seq<System>, events: seq<Event>)

  /** What was logged since checkpoints no draft but `d`. */
  ghost predicate Logged(before: Trace, after: Trace, d: Option<nat>) {
    && before.states <= after.states && before.events <= after.events
    && forall k :: |before.events| <= k < |after.events| && after.events[k].CheckpointDraft? ==>
         d == Some(after.events[k].d)
  }

  lemma LoggedChain(a: Trace, b: Trace, c: Trace, d: Option<nat>)
    requires (a == b || Logged(a, b, d) || Logged(a, b, None)) && (Logged(b, c, d) || Logged(b, c, None))
    ensures Logged(a, c, d)
  {
  }

  lemma LoggedHere(a: Trace, b: Trace, d: Option<nat>)
    requires Logged(a, b, d)
    ensures a.states <= b.states && a.events <= b.events
  {
  }

  lemma NotOpen(sv: Server, d: nat, record: nat)
    ensures d !in sv.drafts ==> !MayPublish(sv, d, record)
  {
  }

  ghost predicate LastIs(events: seq<Event>, e: Event) { |events| > 0 && events[|events| - 1] == e }

  class Client {
    const squashAfter: nat
    const configured: bool
    var disk: Document
    var remote: RemoteState
    var server: Server
    ghost var run: Option<Run>
    ghost var archived: Option<Archived>
    ghost var states: seq<System>
    ghost var events: seq<Event>

    constructor (squashAfter: nat, configured: bool, disk: Document, server: Server)
      requires WellFormed(disk) && ServerOk(server)
      ensures Valid() && run.None?
      ensures this.disk == disk && this.server == server && remote == FRESH_REMOTE
    {
      this.squashAfter, this.configured := squashAfter, configured;
      this.disk, this.remote, this.server := disk, FRESH_REMOTE, server;
      run, archived, events := None, None, [];
      states := [System(disk, FRESH_REMOTE, server, None, None)];
    }

    ghost function Now(): System
      reads this
    {
      System(disk, remote, server, run, archived)
    }

    ghost function Log(): Trace
      reads this
    {
      Trace(states, events)
    }

    /** The log is a run of the protocol that ends in the present state. */
    ghost predicate Valid()
      reads this
    {
      |states| == |events| + 1 && ValidRun(squashAfter, states, events) && Initial(states[0]) &&
      states[|events|] == Now()
    }

    ghost method Record(e: Event)
      requires |states| == |events| + 1 && ValidRun(squashAfter, states, events) && Initial(states[0])
      requires Step(squashAfter, states[|events|], e, Now())
      modifies this`states, this`events
      ensures Valid()
      ensures states == old(states) + [Now()] && events == old(events) + [e]
    {
      states, events := states + [Now()], events + [e];
    }

    /** Anything the server and the web layer do meanwhile. */
    method World()
      requires Valid()
      modifies this`disk, this`server, this`states, this`events
      ensures Valid() && Logged(old(Log()), Log(), None)
    {
      var n: int := *;
      while n > 0
        invariant Valid() && Logged(old(Log()), Log(), None)
      {
        n := n - 1;
        var e: Event := *;
        if (e.Submit? || e.EditStatus? || e.ServerOpens? || e.ServerVersions? || e.ServerDiscards? ||
            e.ServerPublishes?) {
          var s := System(disk, remote, server, None, None);
          if Enabled(s, e) {
            var t := After(squashAfter, s, e);
            disk, server := t.disk, t.server;
            Record(e);
          }
        }
      }
    }

    /** Any failure of a push drops what was not saved. */
    method Fail(message: string) returns (r: Result<PushOutcome>)
      requires Valid()
      modifies this`run, this`states, this`events
      ensures Valid() && run.None? && r == Err(message)
      ensures Logged(old(Log()), Log(), None) && events == old(events) + [Crash]
    {
      run := None;
      Record(Crash);
      return Err(message);
    }

    /** GET on a checkpointed draft. */
    method FetchDraft(d: nat, a: Replies) returns (alive: bool)
      ensures alive <==> d in a.answering
    {
      alive := d in a.answering;
    }

    /** A new version of the known record, or the project's first deposit. */
    method MakeDraft(recordId: Option<nat>, a: DraftAnswer) returns (r: Option<nat>)
      requires Valid()
      modifies this`server, this`states, this`events
      ensures Valid() && Logged(old(Log()), Log(), None)
      ensures r == if CanMake(old(server), recordId, a) && Seen(a) then Some(a.d) else None
      ensures r.Some? ==> MayAdopt(server, recordId, r.value)
      ensures server ==
        if !CanMake(old(server), recordId, a) || a.HandsOut? then old(server)
        else if recordId.None? then DraftOpened(old(server), a.d, map[], {})
        else DraftOpened(old(server), a.d, old(server).records[a.from].files,
                         old(server).records[a.from].ancestors + {a.from})
    {
      if !CanMake(server, recordId, a) { return None; }
      match a {
        case HandsOut(d) => return Some(d);
        case Opens(d, from, seen) =>
          if recordId.None? {
            server := DraftOpened(server, d, map[], {});
            Record(ServerOpens(d));
          } else {
            server := DraftOpened(server, d, server.records[from].files, server.records[from].ancestors + {from});
            Record(ServerVersions(from, d));
          }
          return if seen then Some(d) else None;
      }
    }

    /** PUT into the draft's bucket; fails once the draft is no longer open.  A failure may
        leave no trace, or the file with its reply lost. */
    method Upload(d: nat, name: FileName, body: FileBody, a: Answer, ghost e: Event, ghost next: Stage)
      returns (ok: bool)
      requires Valid() && run.Some? && !e.CheckpointDraft?
      requires d in server.drafts ==>
        Step(squashAfter, Now(), e, At(Now().(server := FileUploaded(server, d, name, body)), next))
      modifies this`server, this`run, this`states, this`events
      ensures Valid() && Logged(old(Log()), Log(), None)
      ensures ok <==> a.Done? && d in old(server).drafts
      ensures if a.NotDone? || d !in old(server).drafts then server == old(server) && run == old(run)
              else server == FileUploaded(old(server), d, name, body) && run == Some(old(run).value.(stage := next))
    {
      if a.NotDone? || d !in server.drafts { return false; }
      server := FileUploaded(server, d, name, body);
      run := Some(run.value.(stage := next));
      Record(e);
      ok := a.Done?;
    }

    /** Write `remote.json`; on failure nothing is written. */
    method SaveRemote(st: RemoteState, saved: bool, ghost e: Event, ghost next: Stage)
      requires Valid() && run.Some?
      requires Step(squashAfter, Now(), e, At(Now().(remote := st), next))
      modifies this`remote, this`run, this`states, this`events
      ensures Valid()
      ensures if saved
              then remote == st && run == Some(old(run).value.(stage := next)) &&
                  events == old(events) + [e] && states == old(states) + [Now()]
              else remote == old(remote) && run == old(run) && events == old(events) && states == old(states)
    {
      if saved {
        remote := st;
        run := Some(run.value.(stage := next));
        Record(e);
      }
    }

    method Publish(d: nat, a: Replies) returns (r: Option<nat>)
      requires Valid() && run.Some? && run.value.stage == Listed && remote.draft == Some(d)
      modifies this`server, this`run, this`states, this`events
      ensures Valid() && Logged(old(Log()), Log(), None) && run.Some? && run.value.index == old(run).value.index
      ensures r == if a.publication.Done? && MayPublish(old(server), d, a.record) then Some(a.record) else None
      ensures r.Some? ==> run.value.stage == Accepted(a.record)
      ensures !MayPublish(old(server), d, a.record) ==> server == old(server)
    {
      if a.publication.NotDone? || !MayPublish(server, d, a.record) { return None; }
      server := DraftPublished(server, d, a.record);
      run := Some(run.value.(stage := Accepted(a.record)));
      Record(PublishDraft(a.record));
      return if a.publication.Done? then Some(a.record) else None;
    }

    /** 1: the draft.  A checkpointed one is reused exactly when it answers, without touching the
        server or the index, and otherwise replaced by the one the server gives. */
    method OpenDraft(a: Replies) returns (made: Option<nat>)
      requires Valid() && run.Some? && run.value.stage == Opening
      modifies this`disk, this`remote, this`server, this`run, this`states, this`events
      ensures Valid() && run.Some? && run.value.index == old(run).value.index
      ensures Logged(old(Log()), Log(), DraftFor(old(remote), a))
      ensures made.Some? ==> made == DraftFor(old(remote), a) && run.value.stage == Drafted
      ensures remote == if made.Some? then old(remote).(draft := made) else old(remote)
      ensures Reuses(old(remote), a) ==>
        && server == old(server) && disk == old(disk)
        && made == (if a.draftSaved then old(remote).draft else None)
        && (a.draftSaved ==>
              && events == old(events) + [CheckpointDraft(old(remote).draft.value)]
              && states == old(states) + [Now()])
      ensures !Reuses(old(remote), a) && made.Some? ==> MayAdopt(server, old(remote).recordId, made.value)
      ensures made.Some? ==> a.draftSaved && (Reuses(old(remote), a) || Seen(a.draft))
      ensures made.None? && a.draftSaved ==>
        !Reuses(old(remote), a) && (!Seen(a.draft) || !CanMake(server, old(remote).recordId, a.draft))
    {
      hide ValidRun, Initial;
      var st := remote;
      var dep: nat;
      var live := false;
      if st.draft.Some? { live := FetchDraft(st.draft.value, a); }
      if live {
        dep := st.draft.value;
      } else {
        st := st.(draft := None);
        World();
        var draft := MakeDraft(st.recordId, a.draft);
        if draft.None? { return None; }
        dep := draft.value;
      }
      st := st.(draft := Some(dep));
      SaveRemote(st, a.draftSaved, CheckpointDraft(dep), Drafted);
      return if a.draftSaved then Some(dep) else None;
    }

    /** 2: the payload, resumed or chosen and frozen with its base. */
    method ChoosePayload(a: Replies) returns (chosen: Option<Inflight>)
      requires Valid() && run.Some? && run.value.stage == Drafted
      modifies this`remote, this`run, this`states, this`events
      ensures Valid() && Logged(old(Log()), Log(), None) && run.Some? && run.value.index == old(run).value.index
      ensures chosen.Some? <==> a.nameSaved
      ensures chosen.Some? ==>
        remote == PayloadNamed(old(remote), squashAfter) && remote.inflight == chosen && run.value.stage == Named
      ensures chosen.None? ==> remote == old(remote)
    {
      hide ValidRun, Initial;
      var st := remote;
      var inf: Inflight;
      if st.inflight.Some? {
        inf := st.inflight.value;
      } else {
        var isFirst := st.fileSequence == [];
        var squash := !isFirst && st.deltaCount >= squashAfter;
        var kind := if isFirst || squash then SnapshotKind else DeltaKind;
        var n := CountKind(st.fileSequence, kind);
        inf := Inflight(NameOf(kind, n), kind, st.lastSeq);
        if squash { st := st.(fileSequence := [], deltaCount := 0); }
      }
      st := st.(inflight := Some(inf));
      SaveRemote(st, a.nameSaved, NamePayload, Named);
      return if a.nameSaved then Some(inf) else None;
    }

    /** 3: write the payload, then record it exactly once. */
    method WritePayload(index: Document, dep: nat, inf: Inflight, a: Replies) returns (ok: bool)
      requires Valid() && run == Some(Run(index, Named)) && remote.draft == Some(dep) && remote.inflight == Some(inf)
      modifies this`disk, this`remote, this`server, this`run, this`states, this`events
      ensures Valid() && Logged(old(Log()), Log(), None) && run.Some? && run.value.index == index
      ensures remote == if ok then PayloadRecorded(old(remote)) else old(remote)
      ensures ok ==> run.value.stage == Recorded && a.payload.Done? && a.recordSaved
      ensures !ok && a.payload.Done? && a.recordSaved ==> dep !in server.drafts
    {
      hide ValidRun, Initial, EncodeDelta, EncodeSnapshot;
      var payload := if inf.kind.DeltaKind? then EncodeDelta(index, inf.baseSeq) else EncodeSnapshot(index);
      World();
      ok := Upload(dep, inf.file, payload, a.payload, UploadPayload, Uploaded);
      if !ok { return; }
      var st := remote;
      if !EndsIn(st.fileSequence, inf.file) {
        st := st.(fileSequence := st.fileSequence + [inf.file]);
        if inf.kind.DeltaKind? { st := st.(deltaCount := st.deltaCount + 1); }
      }
      SaveRemote(st, a.recordSaved, RecordPayload, Recorded);
      ok := a.recordSaved;
    }

    /** The manifest is there: publish, then retire the checkpoints together. */
    method PublishListed(index: Document, dep: nat, a: Replies) returns (published: Option<nat>)
      requires Valid() && run == Some(Run(index, Listed)) && remote.draft == Some(dep) && remote.inflight.Some?
      modifies this
      ensures Valid() && Logged(old(Log()), Log(), None) && run.Some? && run.value.index == index
      ensures published.Some? ==>
        && run.value.stage == Acknowledged(published.value)
        && remote == PushRetired(old(remote), published.value, index.frontier)
        && archived.Some? && archived.value.doc == index
        && published.value in server.records && Faithful(server.records[published.value], archived.value, squashAfter)
        && published == Some(a.record) && a.publication.Done? && a.retired
      ensures published.None? ==> remote == old(remote)
      ensures published.None? && a.publication.Done? && a.retired ==> !MayPublish(server, dep, a.record)
    {
      hide Valid, Faithful, Logged, MayPublish;
      ghost var e0 := Log();
      World();
      ghost var e1 := Log();
      published := Publish(dep, a);
      LoggedChain(e0, e1, Log(), None);
      if published.None? { return None; }
      ghost var e2 := Log();
      var st := remote.(inflight := None, draft := None, recordId := Some(published.value), lastSeq := index.frontier);
      World();
      LoggedChain(e0, e2, Log(), None);
      ghost var e3 := Log();
      SaveAcknowledged(st, published.value, a.retired);
      LoggedChain(e0, e3, Log(), None);
      if !a.retired { return None; }
    }

    /** 4: the manifest, then publish, then retire the checkpoints together. */
    method PublishPush(index: Document, dep: nat, a: Replies) returns (published: Option<nat>)
      requires Valid() && run == Some(Run(index, Recorded)) && remote.draft == Some(dep) && remote.inflight.Some?
      modifies this
      ensures Valid() && Logged(old(Log()), Log(), None) && run.Some? && run.value.index == index
      ensures published.Some? ==>
        && run.value.stage == Acknowledged(published.value)
        && remote == PushRetired(old(remote), published.value, index.frontier)
        && archived.Some? && archived.value.doc == index
        && published.value in server.records && Faithful(server.records[published.value], archived.value, squashAfter)
        && published == Some(a.record) && a.manifest.Done? && a.publication.Done? && a.retired
      ensures published.None? ==> remote == old(remote)
      ensures published.None? && a.manifest.Done? && a.publication.Done? && a.retired ==>
          !MayPublish(server, dep, a.record)
    {
      hide ValidRun, Initial, Faithful, Logged, MayPublish;
      ghost var e0 := Log();
      var st := remote;
      World();
      ghost var e1 := Log();
      var manifest := Manifest(st.fileSequence, index.frontier);
      var ok := Upload(dep, ManifestFile, manifest, a.manifest, UploadManifest, Listed);
      LoggedChain(e0, e1, Log(), None);
      if !ok { NotOpen(server, dep, a.record); return None; }
      ghost var e2 := Log();
      published := PublishListed(index, dep, a);
      LoggedChain(e0, e2, Log(), None);
    }

    /** 2 to 4, on the draft just checkpointed. */
    method Deposit(index: Document, dep: nat, a: Replies) returns (r: Result<PushOutcome>)
      requires Valid() && run == Some(Run(index, Drafted)) && remote.draft == Some(dep)
      modifies this
      ensures Valid() && Logged(old(Log()), Log(), None)
      ensures r.Err? ==> run.None? && LastIs(events, Crash) && remote.draft == Some(dep)
      ensures r.Ok? ==>
        && r.value.recordId == a.record && r.value.doi == a.doi && AllDone(a)
        && run == Some(Run(index, Acknowledged(a.record)))
        && remote.recordId == Some(a.record) && remote.inflight.None? && remote.draft.None?
        && remote.lastSeq == index.frontier && r.value.files == remote.fileSequence
        && EndsIn(r.value.files, r.value.file)
        && archived.Some? && archived.value.doc == index
        && a.record in server.records && Faithful(server.records[a.record], archived.value, squashAfter)
      ensures AllDone(a) ==> r.Ok? || !MayPublish(server, dep, a.record)
    {
      hide Valid, Faithful, Logged;
      ghost var e0 := Log();
      var inf := ChoosePayload(a);
      ghost var e1 := Log();
      if inf.None? { r := Fail("cannot save remote.json"); LoggedChain(e0, e1, Log(), None); return; }
      var ok := WritePayload(index, dep, inf.value, a);
      LoggedChain(e0, e1, Log(), None);
      ghost var e2 := Log();
      if !ok { r := Fail("upload failed"); LoggedChain(e0, e2, Log(), None); return; }
      var record := PublishPush(index, dep, a);
      LoggedChain(e0, e2, Log(), None);
      ghost var e3 := Log();
      if record.None? { r := Fail("publish failed"); LoggedChain(e0, e3, Log(), None); return; }
      r := Ok(PushOutcome(record.value, inf.value.file, inf.value.kind, remote.fileSequence, a.doi));
    }

    /** The push itself, checkpointing `remote.json` before each next step. */
    method Push(index: Document, a: Replies) returns (r: Result<PushOutcome>)
      requires Valid() && run == Some(Run(index, Opening))
      modifies this
      ensures Valid()
      ensures Logged(old(Log()), Log(), DraftFor(old(remote), a))
      ensures r.Err? ==> run.None? && LastIs(events, Crash)
      ensures configured && Reuses(old(remote), a) && a.draftSaved ==>
        var first := System(old(disk), old(remote), old(server), Some(Run(index, Drafted)), old(archived));
        old(events) + [CheckpointDraft(old(remote).draft.value)] <= events && old(states) + [first] <= states
      ensures r.Err? ==> remote.draft == old(remote).draft || remote.draft == DraftFor(old(remote), a)
      ensures r.Ok? ==>
        var record := r.value.recordId;
        && configured && AllSucceed(old(remote), a)
        && record == a.record && r.value.doi == a.doi
        && run == Some(Run(index, Acknowledged(record)))
        && remote.recordId == Some(record) && remote.inflight.None? && remote.draft.None?
        && remote.lastSeq == index.frontier && r.value.files == remote.fileSequence
        && EndsIn(r.value.files, r.value.file)
        && archived.Some? && archived.value.doc == index
        && record in server.records && Faithful(server.records[record], archived.value, squashAfter)
      ensures configured && AllSucceed(old(remote), a) ==> r.Ok? || OutOfReach(old(remote), remote, server, a)
    {
      hide Valid, Faithful, CanMake, MayPublish, MayAdopt, Logged;
      ghost var e0 := Log();
      if !configured {
        r := Fail("ZENODO_API_KEY is not set");
        LoggedChain(e0, e0, Log(), DraftFor(remote, a));
        return;
      }
      var dep := OpenDraft(a);
      ghost var e1 := Log();
      LoggedHere(e0, Log(), DraftFor(old(remote), a));
      if dep.None? {
        r := Fail("no draft");
      } else {
        r := Deposit(index, dep.value, a);
      }
      LoggedChain(e0, e1, Log(), DraftFor(old(remote), a));
      LoggedHere(e1, Log(), None);
    }

    /** The last save of a push. */
    method SaveAcknowledged(st: RemoteState, record: nat, saved: bool)
      requires Valid() && run.Some? && run.value.stage == Accepted(record) && remote.inflight.Some?
      requires st == PushRetired(remote, record, run.value.index.frontier)
      modifies this`remote, this`run, this`archived, this`states, this`events
      ensures Valid() && Logged(old(Log()), Log(), None) && run.Some? && run.value.index == old(run).value.index
      ensures !saved ==> remote == old(remote)
      ensures saved ==> remote == st && run.value.stage == Acknowledged(record)
      ensures saved ==>
        && archived.Some? && archived.value.doc == run.value.index
        && record in server.records && Faithful(server.records[record], archived.value, squashAfter)
    {
      if saved {
        ghost var bound := NextBound(Now());
        remote := st;
        archived := Some(Archived(run.value.index, bound));
        run := Some(run.value.(stage := Acknowledged(record)));
        Record(Acknowledge);
        AcknowledgedPushIsRecoverable(squashAfter, states, events, |events| - 1, |events|);
      }
    }

    /** One job attempt: load, push, record the outcome, save. A published proof is a no-op.  On
        success the record and DOI of the push are on disk, and every other proof is as it was loaded. */
    method Attempt(proof: string, a: Replies) returns (r: Result<Option<PushOutcome>>)
      requires Valid() && run.None?
      modifies this
      ensures Valid() && run.None?
      ensures r.Ok? ==> proof in disk.proofs && disk.proofs[proof].state == Published && disk.proofs[proof].record.Some?
      ensures r == Ok(None) <==>
        proof in old(disk).proofs && old(disk).proofs[proof].state == Published && old(disk).proofs[proof].record.Some?
      ensures r == Ok(None) || proof !in old(disk).proofs ==>
          disk == old(disk) && remote == old(remote) && server == old(server)
      ensures proof !in old(disk).proofs ==> r.Err?
      ensures r.Ok? && r.value.Some? ==>
        var record := r.value.value.recordId;
        && configured && AllSucceed(old(remote), a) && a.indexSaved && a.audited
        && record == a.record && remote.recordId == Some(record)
        && Edited(old(disk), proof, Some(record), Published, a.doi, disk)
        && archived.Some? && proof in archived.value.doc.proofs
        && record in server.records && Faithful(server.records[record], archived.value, squashAfter)
      ensures r.Err? && proof in old(disk).proofs ==>
        || LastIs(events, Crash)
        || (!a.audited && Edited(old(disk), proof, Some(a.record), Published, a.doi, disk))
      ensures proof in old(disk).proofs && configured && AllSucceed(old(remote), a) && a.indexSaved && a.audited ==>
        r.Ok? || OutOfReach(old(remote), remote, server, a)
    {
      hide Valid, Faithful, OutOfReach, AllSucceed, Logged, CanMake, MayPublish, MayAdopt, DraftFor, Reuses;
      var index := disk;
      if proof !in index.proofs { return Err("proof is not in the index"); }
      if index.proofs[proof].state == Published && index.proofs[proof].record.Some? { return Ok(None); }
      Begin();
      var pushed := Push(index, a);
      if pushed.Err? { return Err(pushed.message); }
      if !a.indexSaved {
        var _ := Fail("cannot save index after push");
        return Err("cannot save index after push");
      }
      var outcome := pushed.value;
      SaveOutcome(index, proof, outcome.recordId, outcome.doi);
      if !a.audited { return Err("audit log"); }
      return Ok(Some(outcome));
    }

    method Begin()
      requires Valid() && run.None?
      modifies this`run, this`states, this`events
      ensures Valid() && run == Some(Run(disk, Opening)) && events == old(events) + [BeginPush]
    {
      run := Some(Run(disk, Opening));
      Record(BeginPush);
    }

    /** The loaded index, with the outcome of the push, over whatever is on disk by now. */
    method SaveOutcome(index: Document, proof: string, record: nat, doi: Option<string>)
      requires Valid() && run == Some(Run(index, Acknowledged(record))) && proof in index.proofs
      modifies this`disk, this`run, this`states, this`events
      ensures Valid() && run.None? && events == old(events) + [SaveIndex(proof, doi)]
      ensures Edited(index, proof, Some(record), Published, doi, disk)
    {
      hide ValidRun, Initial;
      disk := StatusEdited(index, proof, Some(record), Published, doi);
      run := None;
      Record(SaveIndex(proof, doi));
      StatusEditIsEdit(index, proof, Some(record), Published, doi, disk);
    }

    /** Giving up: the state of that one proof, once it is saved. */
    method MarkFailed(proof: string, saved: bool)
      requires Valid() && run.None?
      modifies this`disk, this`states, this`events
      ensures Valid()
      ensures !saved || proof !in old(disk).proofs ==> disk == old(disk)
      ensures saved && proof in old(disk).proofs ==>
        Edited(old(disk), proof, old(disk).proofs[proof].record, PublishFailed, old(disk).proofs[proof].doi, disk)
    {
      if proof !in disk.proofs { return; }
      var p := disk.proofs[proof];
      if saved {
        StatusEditIsEdit(disk, proof, p.record, PublishFailed, p.doi, StatusEdited(disk, proof, p.record, PublishFailed,
                                                                                   p.doi));
        disk := StatusEdited(disk, proof, p.record, PublishFailed, p.doi);
        Record(EditStatus(proof, p.record, PublishFailed, p.doi));
      }
    }

    /** One job: at most MAX_ATTEMPTS attempts, with submissions arriving between them. */
    method Work(proof: string, replies: nat -> Replies, markSaved: bool) returns (attempts: nat, published: bool)
      requires Valid() && run.None?
      modifies this
      ensures Valid() && run.None?
      ensures 1 <= attempts <= MAX_ATTEMPTS && (published || attempts == MAX_ATTEMPTS)
      ensures published ==>
          proof in disk.proofs && disk.proofs[proof].state == Published && disk.proofs[proof].record.Some?
      ensures !published && markSaved && proof in disk.proofs ==> disk.proofs[proof].state == PublishFailed
    {
      hide ValidRun, Initial, Faithful;
      attempts := 0;
      while true
        invariant Valid() && run.None? && attempts < MAX_ATTEMPTS
        decreases MAX_ATTEMPTS - attempts
      {
        var r := Attempt(proof, replies(attempts));
        attempts := attempts + 1;
        if r.Ok? { return attempts, true; }
        if attempts >= MAX_ATTEMPTS {
          MarkFailed(proof, markSaved);
          return attempts, false;
        }
        World();
      }
    }
  }
}
