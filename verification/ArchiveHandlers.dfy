/** The archive with the web handlers of `mm0web/src/web.rs` as they run: a handler loads the
    index, changes its copy and stores it later, so its copy may be out of date by then. */
module ArchiveHandlers {
  import opened Wrappers
  import opened ProjectIndex
  import opened ArchiveProtocol
  import opened ArchiveSafety
  import opened ArchiveProgress

  /** The archive, and the copy of the index that each handler holds. */
  datatype Web = Web(core: System, copies: map<nat, Document>)

  datatype Act =
    | Core(e: Event)
    | Load(h: nat)
    | Revise(h: nat, s: Submission)
    | Mark(h: nat, id: string, state: PublishState)
    | Store(h: nat)

  predicate CanAct(w: Web, a: Act) {
    match a
    case Core(e) => Enabled(w.core, e)
    case Load(_) => true
    case Revise(h, _) => h in w.copies
    case Mark(h, _, _) => h in w.copies
    case Store(h) => h in w.copies
  }

  function Marked(d: Document, id: string, state: PublishState): Document {
    if id in d.proofs then StatusEdited(d, id, d.proofs[id].record, state, d.proofs[id].doi) else d
  }

  function Acted(q: nat, w: Web, a: Act): Web
    requires CanAct(w, a)
  {
    match a
    case Core(e) => w.(core := After(q, w.core, e))
    case Load(h) => w.(copies := w.copies[h := w.core.disk])
    case Revise(h, s) => w.(copies := w.copies[h := Upserted(w.copies[h], s)])
    case Mark(h, id, state) => w.(copies := w.copies[h := Marked(w.copies[h], id, state)])
    case Store(h) => w.(core := w.core.(disk := w.copies[h]))
  }

  ghost predicate ValidActs(q: nat, webs: seq<Web>, acts: seq<Act>) {
    && |webs| == |acts| + 1
    && forall i :: 0 <= i < |acts| ==> CanAct(webs[i], acts[i]) && webs[i + 1] == Acted(q, webs[i], acts[i])
  }

  ghost predicate StartOfWeb(w: Web) { Initial(w.core) && w.copies == map[] }

  // ----- what the handlers cannot break -----

  ghost predicate WebConsistent(q: nat, w: Web) {
    Consistent(w.core, q) && forall h :: h in w.copies ==> WellFormed(w.copies[h])
  }

  lemma DiskDoesNotMatter(q: nat, s: System, d: Document)
    requires Consistent(s, q) && WellFormed(d)
    ensures Consistent(s.(disk := d), q)
  {
    hide Readable, Descends, ShapeOk, ServerOk, WellFormed, MayAdopt, HasPayload, HasManifest;
  }

  lemma MarkEvolves(d: Document, id: string, state: PublishState)
    requires WellFormed(d)
    ensures WellFormed(Marked(d, id, state)) && Evolves(d, Marked(d, id, state))
  {
    hide Evolves, WellFormed, StatusEdited;
    EvolvesReflexive(d);
    if id in d.proofs { StatusEditEvolves(d, id, d.proofs[id].record, state, d.proofs[id].doi); }
  }

  lemma ConsistentHasIndex(q: nat, s: System)
    requires Consistent(s, q)
    ensures WellFormed(s.disk)
  {
  }

  /** Whatever the handlers store, only an unsound push can make the archive inconsistent. */
  lemma ActKeepsConsistent(q: nat, w: Web, a: Act)
    requires WebConsistent(q, w) && CanAct(w, a) && (a == Core(Acknowledge) ==> Sound(w.core))
    ensures WebConsistent(q, Acted(q, w, a))
  {
    hide Consistent, After, Enabled, Sound, WellFormed, Upserted, Marked, Evolves;
    ConsistentHasIndex(q, w.core);
    match a {
      case Core(e) => StepKeepsConsistent(q, w.core, e);
      case Load(_) =>
      case Revise(h, s) => UpsertEvolves(w.copies[h], s);
      case Mark(h, id, state) => MarkEvolves(w.copies[h], id, state);
      case Store(h) => DiskDoesNotMatter(q, w.core, w.copies[h]);
    }
  }

  /** The push acknowledged at i has, at j, a record that replays to the index it pushed. */
  ghost predicate FaithfulAt(q: nat, webs: seq<Web>, i: nat, j: nat)
    requires i < |webs| && j < |webs|
  {
    var s, sv := webs[i].core, webs[j].core.server;
    && s.run.Some? && s.run.value.stage.Accepted? && s.remote.inflight.Some?
    && s.run.value.stage.record in sv.records
    && Faithful(sv.records[s.run.value.stage.record], Archived(s.run.value.index, NextBound(s)), q)
  }

  lemma StartIsConsistent(q: nat, w: Web)
    requires StartOfWeb(w)
    ensures WebConsistent(q, w)
  {
    RunKeepsInv(q, [w.core], [], 0);
  }

  lemma {:induction false} WebRecordsArePermanent(q: nat, webs: seq<Web>, acts: seq<Act>, i: nat, j: nat, record: nat)
    requires ValidActs(q, webs, acts) && i <= j < |webs| && record in webs[i].core.server.records
    ensures record in webs[j].core.server.records
    ensures webs[j].core.server.records[record] == webs[i].core.server.records[record]
    decreases j
  {
    if i < j {
      WebRecordsArePermanent(q, webs, acts, i, j - 1, record);
      assert CanAct(webs[j - 1], acts[j - 1]);
      if acts[j - 1].Core? {
        var steps := [webs[j - 1].core, webs[j].core];
        assert ValidRun(q, steps, [acts[j - 1].e]);
        RecordsArePermanent(q, steps, [acts[j - 1].e], 0, 1, record);
      }
    }
  }

  /** In a consistent state the acknowledged push is faithful, now and ever after, exactly when
      it is sound. */
  lemma FaithfulIffSound(q: nat, webs: seq<Web>, acts: seq<Act>, i: nat, j: nat)
    requires ValidActs(q, webs, acts) && i < |acts| && acts[i] == Core(Acknowledge) && i < j < |webs|
    requires WebConsistent(q, webs[i])
    ensures FaithfulAt(q, webs, i, j) <==> Sound(webs[i].core)
  {
    assert CanAct(webs[i], acts[i]);
    var s := webs[i].core;
    var record := s.run.value.stage.record;
    AcceptedIsFaithfulIff(q, s, record);
    hide Consistent, Faithful, Sound, ValidActs;
    WebRecordsArePermanent(q, webs, acts, i, j, record);
  }

  lemma {:induction false} SoundSoFar(q: nat, webs: seq<Web>, acts: seq<Act>, k: nat)
    requires ValidActs(q, webs, acts) && StartOfWeb(webs[0]) && k < |webs|
    requires forall i :: 0 <= i < k && acts[i] == Core(Acknowledge) ==> Sound(webs[i].core)
    ensures WebConsistent(q, webs[k])
  {
    hide WebConsistent, Sound, StartOfWeb, Acted, CanAct;
    if k == 0 {
      StartIsConsistent(q, webs[0]);
    } else {
      SoundSoFar(q, webs, acts, k - 1);
      ActKeepsConsistent(q, webs[k - 1], acts[k - 1]);
    }
  }

  lemma {:induction false} FaithfulSoFar(q: nat, webs: seq<Web>, acts: seq<Act>, k: nat)
    requires ValidActs(q, webs, acts) && StartOfWeb(webs[0]) && k < |webs|
    requires forall i :: 0 <= i < k && acts[i] == Core(Acknowledge) ==> FaithfulAt(q, webs, i, i + 1)
    ensures WebConsistent(q, webs[k])
    ensures forall i :: 0 <= i < k && acts[i] == Core(Acknowledge) ==> Sound(webs[i].core)
  {
    hide WebConsistent, Sound, StartOfWeb, Acted, CanAct, FaithfulAt;
    if k == 0 {
      StartIsConsistent(q, webs[0]);
    } else {
      FaithfulSoFar(q, webs, acts, k - 1);
      if acts[k - 1] == Core(Acknowledge) { FaithfulIffSound(q, webs, acts, k - 1, k); }
      ActKeepsConsistent(q, webs[k - 1], acts[k - 1]);
    }
  }

  /** Over any run, with any number of handlers storing whatever copies they hold: all
      acknowledged pushes are recoverable, and stay so, exactly when each pushes a snapshot or
      an index that continues the one archived before it. */
  lemma AllRecoverableIff(q: nat, webs: seq<Web>, acts: seq<Act>)
    requires ValidActs(q, webs, acts) && StartOfWeb(webs[0])
    ensures (forall i, j :: 0 <= i < j < |webs| && acts[i] == Core(Acknowledge) ==> FaithfulAt(q, webs, i, j))
       <==> (forall i :: 0 <= i < |acts| && acts[i] == Core(Acknowledge) ==> Sound(webs[i].core))
  {
    hide WebConsistent, Sound, StartOfWeb, FaithfulAt;
    if forall i :: 0 <= i < |acts| && acts[i] == Core(Acknowledge) ==> Sound(webs[i].core) {
      forall i, j | 0 <= i < j < |webs| && acts[i] == Core(Acknowledge) ensures FaithfulAt(q, webs, i, j) {
        SoundSoFar(q, webs, acts, i);
        FaithfulIffSound(q, webs, acts, i, j);
      }
    }
    if forall i, j :: 0 <= i < j < |webs| && acts[i] == Core(Acknowledge) ==> FaithfulAt(q, webs, i, j) {
      FaithfulSoFar(q, webs, acts, |acts|);
    }
  }

  // ----- when they break nothing -----

  /** Since handler h last loaded the index, no push has begun. */
  predicate LoadedLate(acts: seq<Act>, h: nat) {
    if acts == [] then false
    else
      var a := acts[|acts| - 1];
      a == Load(h) || (a != Core(BeginPush) && LoadedLate(acts[..|acts| - 1], h))
  }

  /** No push begins between a load and a store of the same handler. */
  ghost predicate StoresInTime(acts: seq<Act>) {
    forall k :: 0 <= k < |acts| && acts[k].Store? ==> LoadedLate(acts[..k], acts[k].h)
  }

  /** The copy is a later version of the last archived index and of the one being pushed. */
  ghost predicate KeepsUp(s: System, d: Document) {
    && WellFormed(d)
    && (s.archived.Some? ==> Evolves(s.archived.value.doc, d))
    && (s.run.Some? ==> Evolves(s.run.value.index, d))
  }

  /** Storing a copy keeps the invariant exactly when the copy keeps up. */
  lemma StoreKeepsInvIff(q: nat, s: System, d: Document)
    requires Inv(s, q)
    ensures Inv(s.(disk := d), q) <==> KeepsUp(s, d)
  {
    hide Readable, Descends, ShapeOk, ServerOk, WellFormed, MayAdopt, HasPayload, HasManifest, Evolves;
  }

  lemma LaterCopyKeepsUp(s: System, d: Document, later: Document)
    requires KeepsUp(s, d) && Evolves(d, later) && WellFormed(later)
    ensures KeepsUp(s, later)
  {
    hide Evolves, WellFormed;
    if s.archived.Some? { EvolvesTransitive(s.archived.value.doc, d, later); }
    if s.run.Some? { EvolvesTransitive(s.run.value.index, d, later); }
  }

  lemma StepKeepsUp(q: nat, s: System, e: Event, d: Document)
    requires KeepsUp(s, d) && Enabled(s, e) && !e.BeginPush?
    ensures KeepsUp(After(q, s, e), d)
  {
    hide Evolves, WellFormed;
  }

  lemma DiskKeepsUp(q: nat, s: System)
    requires Inv(s, q)
    ensures KeepsUp(s, s.disk)
  {
  }

  ghost predicate InTime(q: nat, w: Web, acts: seq<Act>) {
    Inv(w.core, q) && forall h :: LoadedLate(acts, h) ==> h in w.copies && KeepsUp(w.core, w.copies[h])
  }

  lemma ActStaysInTime(q: nat, w: Web, acts: seq<Act>, a: Act)
    requires InTime(q, w, acts) && CanAct(w, a) && (a.Store? ==> LoadedLate(acts, a.h))
    ensures InTime(q, Acted(q, w, a), acts + [a])
  {
    hide Inv, After, Enabled, KeepsUp, Upserted, Marked, Evolves, WellFormed;
    var t := Acted(q, w, a);
    assert (acts + [a])[..|acts|] == acts;
    DiskKeepsUp(q, w.core);
    match a {
      case Core(e) =>
        StepKeepsInv(q, w.core, e);
        if !e.BeginPush? {
          forall h | LoadedLate(acts, h) ensures KeepsUp(t.core,
              t.copies[h]) { StepKeepsUp(q, w.core, e, w.copies[h]); }
        }
      case Load(_) =>
      case Revise(h, s) =>
        if LoadedLate(acts, h) { RevisedKeepsUp(w.core, w.copies[h], s); }
      case Mark(h, id, state) =>
        if LoadedLate(acts, h) { MarkedKeepsUp(w.core, w.copies[h], id, state); }
      case Store(h) =>
        StoreKeepsInvIff(q, w.core, w.copies[h]);
        forall k | LoadedLate(acts, k) ensures KeepsUp(t.core,
            t.copies[k]) { SameButDisk(w.core, t.core, w.copies[k]); }
    }
  }

  lemma RevisedKeepsUp(s: System, d: Document, sub: Submission)
    requires KeepsUp(s, d)
    ensures KeepsUp(s, Upserted(d, sub))
  {
    UpsertEvolves(d, sub);
    hide Upserted, Evolves, WellFormed;
    LaterCopyKeepsUp(s, d, Upserted(d, sub));
  }

  lemma MarkedKeepsUp(s: System, d: Document, id: string, state: PublishState)
    requires KeepsUp(s, d)
    ensures KeepsUp(s, Marked(d, id, state))
  {
    MarkEvolves(d, id, state);
    hide Marked, Evolves, WellFormed;
    LaterCopyKeepsUp(s, d, Marked(d, id, state));
  }

  lemma SameButDisk(s: System, t: System, d: Document)
    requires KeepsUp(s, d) && t == s.(disk := t.disk)
    ensures KeepsUp(t, d)
  {
  }

  lemma {:induction false} StaysInTime(q: nat, webs: seq<Web>, acts: seq<Act>, k: nat)
    requires ValidActs(q, webs, acts) && StartOfWeb(webs[0]) && StoresInTime(acts) && k < |webs|
    ensures InTime(q, webs[k], acts[..k])
  {
    if k == 0 {
      RunKeepsInv(q, [webs[0].core], [], 0);
    } else {
      StaysInTime(q, webs, acts, k - 1);
      hide InTime, LoadedLate, Acted, CanAct;
      assert acts[..k] == acts[..k - 1] + [acts[k - 1]];
      ActStaysInTime(q, webs[k - 1], acts[..k - 1], acts[k - 1]);
    }
  }

  /** If no push begins between a load and a store of the same handler, every state satisfies
      the invariant and every acknowledged push is recoverable ever after. */
  lemma StoresInTimeAreSafe(q: nat, webs: seq<Web>, acts: seq<Act>)
    requires ValidActs(q, webs, acts) && StartOfWeb(webs[0]) && StoresInTime(acts)
    ensures forall k :: 0 <= k < |webs| ==> Inv(webs[k].core, q)
    ensures forall i, j :: 0 <= i < j < |webs| && acts[i] == Core(Acknowledge) ==> FaithfulAt(q, webs, i, j)
  {
    forall k | 0 <= k < |webs| ensures Inv(webs[k].core, q) {
      StaysInTime(q, webs, acts, k);
    }
    hide FaithfulAt, StoresInTime, StartOfWeb, Consistent, Grows, Sound;
    forall i | 0 <= i < |acts| && acts[i] == Core(Acknowledge) ensures Sound(webs[i].core) {
      assert CanAct(webs[i], acts[i]);
      GrowingIsSound(q, webs[i].core, webs[i].core.run.value.stage.record);
    }
    AllRecoverableIff(q, webs, acts);
  }

  /** Two handlers load, then both store. */
  function TwoHandlers(first: Submission, second: Submission): seq<Act> {
    [Load(0), Load(1), Revise(0, first), Store(0), Revise(1, second), Store(1)]
  }

  /** Without any push the first submission is on disk after its store and gone at the end. */
  lemma HandlersCanLose(q: nat, w: Web, first: Submission, second: Submission) returns (webs: seq<Web>)
    requires first.id !in w.core.disk.proofs && first.id != second.id
    ensures ValidActs(q, webs, TwoHandlers(first, second)) && webs[0] == w
    ensures first.id in webs[4].core.disk.proofs && first.id !in webs[6].core.disk.proofs
  {
    var a := Acted(q, w, Load(0));
    var b := Acted(q, a, Load(1));
    var c := Acted(q, b, Revise(0, first));
    var d := Acted(q, c, Store(0));
    var e := Acted(q, d, Revise(1, second));
    webs := [w, a, b, c, d, e, Acted(q, e, Store(1))];
  }

  // ----- how a late store breaks the archive -----

  ghost predicate Acts(q: nat, w: Web, acts: seq<Act>)
    decreases |acts|
  {
    acts == [] || (CanAct(w, acts[0]) && Acts(q, Acted(q, w, acts[0]), acts[1..]))
  }

  ghost function End(q: nat, w: Web, acts: seq<Act>): Web
    requires Acts(q, w, acts)
    decreases |acts|
  {
    if acts == [] then w else End(q, Acted(q, w, acts[0]), acts[1..])
  }

  lemma {:induction false} ActsConcat(q: nat, w: Web, a: seq<Act>, b: seq<Act>)
    requires Acts(q, w, a) && Acts(q, End(q, w, a), b)
    ensures Acts(q, w, a + b) && End(q, w, a + b) == End(q, End(q, w, a), b)
    decreases |a|
  {
    hide Acted, CanAct;
    if a == [] {
      assert a + b == b;
    } else {
      ActsConcat(q, Acted(q, w, a[0]), a[1..], b);
      assert (a + b)[1..] == a[1..] + b;
    }
  }

  lemma ActsPush(q: nat, w: Web, acts: seq<Act>, a: Act)
    requires Acts(q, w, acts) && CanAct(End(q, w, acts), a)
    ensures Acts(q, w, acts + [a]) && End(q, w, acts + [a]) == Acted(q, End(q, w, acts), a)
  {
    hide Acted, CanAct;
    var u := End(q, w, acts);
    var none: seq<Act> := [];
    assert [a][1..] == none;
    assert Acts(q, Acted(q, u, a), none) && End(q, Acted(q, u, a), none) == Acted(q, u, a);
    ActsConcat(q, w, acts, [a]);
  }

  function Lift(events: seq<Event>): seq<Act> {
    if events == [] then [] else [Core(events[0])] + Lift(events[1..])
  }

  /** A run of the archive alone is one of the archive with handlers. */
  lemma {:induction false} LiftRuns(q: nat, s: System, copies: map<nat, Document>, events: seq<Event>)
    requires Runs(q, s, events)
    ensures Acts(q, Web(s, copies), Lift(events)) &&
        End(q, Web(s, copies), Lift(events)) == Web(Final(q, s, events), copies)
    decreases |events|
  {
    hide After, Enabled;
    if events != [] {
      LiftRuns(q, After(q, s, events[0]), copies, events[1..]);
      assert Lift(events)[1..] == Lift(events[1..]);
    }
  }

  lemma LiftedPush(q: nat, w: Web, acts: seq<Act>, events: seq<Event>)
    requires Acts(q, w, acts) && Runs(q, End(q, w, acts).core, events)
    ensures Acts(q, w, acts + Lift(events))
    ensures var u := End(q, w, acts);
      End(q, w, acts + Lift(events)) == Web(Final(q, u.core, events), u.copies)
  {
    hide Acted, CanAct, Acts, End, Runs, Final, Lift;
    var u := End(q, w, acts);
    LiftRuns(q, u.core, u.copies, events);
    ActsConcat(q, w, acts, Lift(events));
  }

  /** Steps other than the acknowledgement keep the archive consistent and its last document. */
  lemma {:induction false} RunsStayConsistent(q: nat, s: System, events: seq<Event>)
    requires Consistent(s, q) && Runs(q, s, events) && Acknowledge !in events
    ensures Consistent(Final(q, s, events), q) && Final(q, s, events).archived == s.archived
    decreases |events|
  {
    hide Consistent;
    if events != [] {
      assert After(q, s, events[0]).archived == s.archived;
      hide After, Enabled, Sound;
      StepKeepsConsistent(q, s, events[0]);
      RunsStayConsistent(q, After(q, s, events[0]), events[1..]);
    }
  }

  /** A delta of an index that lost an archived key gives a record that recovers it under no bound. */
  lemma LostKeyIsUnfaithful(q: nat, s: System, record: nat, id: string, bound: nat)
    requires Consistent(s, q) && AtStage(s, Accepted(record)) && s.remote.deltaCount > 0
    requires s.archived.Some? && id in s.archived.value.doc.proofs && id !in s.run.value.index.proofs
    ensures record in s.server.records && !Faithful(s.server.records[record], Archived(s.run.value.index, bound), q)
  {
    AcceptedRecord(q, s, record);
    var st, index := s.remote, s.run.value.index;
    CountedIsDelta(st, q);
    hide Consistent, Recovers, WellFormed, HoldsAll, Contents, IsChain, NoDuplicates, Continues, AgreeApart, Kept,
      ShapeOk, HasPayload;
    AcceptedDelta(q, s, record);
    var inf, files, kept := st.inflight.value, s.server.records[record].files, Kept(st);
    RecordedIsChain(st, q);
    ContentsAgree(files, s.server.records[st.recordId.value].files, inf, kept);
    assert inf.file in files by { PayloadIsThere(files, inf, index); }
    ContentsExtend(files, kept, inf.file);
    var a := s.archived.value;
    LostKeyIsNotRecovered(Contents(files, kept), a.doc, a.sourceBound, files[inf.file], index, id, bound);
  }

  lemma PayloadIsThere(files: map<FileName, FileBody>, inf: Inflight, index: Document)
    requires HasPayload(files, inf, index)
    ensures inf.file in files
  {
  }

  lemma CountedIsDelta(st: RemoteState, q: nat)
    requires ShapeOk(st, q) && st.inflight.Some? && st.deltaCount > 0
    ensures st.inflight.value.kind.DeltaKind?
  {
  }

  /** A push from a consistent checkpoint, up to its acknowledgement. */
  lemma PushUpToAcknowledgement(q: nat, s: System, d: nat) returns (events: seq<Event>, record: nat)
    requires Consistent(s, q) && s.run.None? && d in s.server.drafts && s.server.records.Keys <= s.server.issued
    requires s.remote.draft == Some(d) || MayAdopt(s.server, s.remote.recordId, d)
    ensures Runs(q, s, events)
    ensures var t := Final(q, s, events);
      && Consistent(t, q) && t.archived == s.archived && AtStage(t, Accepted(record)) && t.run.value.index == s.disk
      && Enabled(t, Acknowledge) && t.remote.deltaCount == PayloadRecorded(PayloadNamed(s.remote, q)).deltaCount
  {
    hide Consistent, Runs, Final, Publishing, WholePushWith, MayAdopt;
    record := FinishWith(q, s, d);
    var none: seq<Event> := [];
    PublishingThenAcknowledge(none, d, record);
    events := none + [BeginPush] + [CheckpointDraft(d)] + Publishing(record);
    assert none + WholePushWith(d, record) == WholePushWith(d, record);
    RunsLast(q, s, events, Acknowledge);
    NotAcknowledging(d, record);
    RunsStayConsistent(q, s, events);
  }

  lemma NotAcknowledging(d: nat, record: nat)
    ensures Acknowledge !in [] + [BeginPush] + [CheckpointDraft(d)] + Publishing(record)
  {
  }

  lemma FreshSends(q: nat)
    ensures var sent := PayloadRecorded(PayloadNamed(FRESH_REMOTE, q)); sent.deltaCount == 0 && sent.fileSequence != []
  {
  }

  lemma InvParts(q: nat, s: System)
    requires Inv(s, q)
    ensures ShapeOk(s.remote, q) && WellFormed(s.disk) && Consistent(s, q)
  {
  }

  lemma SubmitKeepsInv(q: nat, s: System, sub: Submission)
    requires Inv(s, q)
    ensures Enabled(s, Submit(sub)) && After(q, s, Submit(sub)) == s.(disk := Upserted(s.disk, sub))
    ensures Inv(s.(disk := Upserted(s.disk, sub)), q) && sub.id in Upserted(s.disk, sub).proofs
  {
    assert sub.id in Upserted(s.disk, sub).proofs;
    hide Inv, Upserted;
    StepKeepsInv(q, s, Submit(sub));
  }

  /** A snapshot push, a load, a submission and a delta push: the handler's copy lacks it. */
  lemma CopyFallsBehind(q: nat, w: Web, first: Submission) returns (acts: seq<Act>)
    requires StartOfWeb(w) && q >= 2 && first.id !in w.core.disk.proofs
    ensures Acts(q, w, acts)
    ensures var u := End(q, w, acts);
      && Inv(u.core, q) && u.core.run.None? && u.core.remote.inflight.None?
      && u.core.remote.fileSequence != [] && u.core.remote.deltaCount == 1
      && u.core.archived.Some? && first.id in u.core.archived.value.doc.proofs
      && 0 in u.copies && WellFormed(u.copies[0]) && first.id !in u.copies[0].proofs
  {
    var none: seq<Act> := [];
    RunKeepsInv(q, [w.core], [], 0);
    FreshSends(q);
    hide Inv, Runs, Final, PayloadRecorded, PayloadNamed, Lift, After, Enabled, Acts, End, Upserted, Evolves,
        WellFormed;
    var one := WholePush(q, w.core);
    NoActs(q, w);
    LiftedPush(q, w, none, one);
    assert none + Lift(one) == Lift(one);
    var u := End(q, w, Lift(one));
    InvParts(q, u.core);
    acts := Lift(one);
    ActsPush(q, w, acts, Load(0));
    acts := acts + [Load(0)];
    SubmitKeepsInv(q, u.core, first);
    ActsPush(q, w, acts, Core(Submit(first)));
    acts := acts + [Core(Submit(first))];
    var v := End(q, w, acts);
    InvParts(q, v.core);
    SentNames(v.core.remote, q);
    var two := WholePush(q, v.core);
    LiftedPush(q, w, acts, two);
    acts := acts + Lift(two);
  }

  /** The server opens a draft and the handler stores its copy. */
  lemma LateStore(q: nat, w: Web, second: Submission) returns (acts: seq<Act>, d: nat)
    requires Inv(w.core, q) && 0 in w.copies && WellFormed(w.copies[0])
    ensures Acts(q, w, acts)
    ensures var s := End(q, w, acts).core;
      && Consistent(s, q) && s.disk == Upserted(w.copies[0], second)
      && s.run == w.core.run && s.remote == w.core.remote && s.archived == w.core.archived
      && d in s.server.drafts && MayAdopt(s.server, s.remote.recordId, d) && s.server.records.Keys <= s.server.issued
  {
    hide Inv, After, Enabled, Consistent, WellFormed, Upserted, MayAdopt, Evolves, Acts, End;
    var e;
    d, e := DraftForLate(q, w.core);
    UpsertEvolves(w.copies[0], second);
    DiskDoesNotMatter(q, After(q, w.core, e), Upserted(w.copies[0], second));
    NoActs(q, w);
    var none: seq<Act> := [];
    ActsPush(q, w, none, Core(e));
    acts := none + [Core(e)];
    ActsPush(q, w, acts, Revise(0, second));
    acts := acts + [Revise(0, second)];
    ActsPush(q, w, acts, Store(0));
    acts := acts + [Store(0)];
  }

  lemma NoActs(q: nat, w: Web)
    ensures Acts(q, w, []) && End(q, w, []) == w
  {
  }

  lemma DraftForLate(q: nat, s: System) returns (d: nat, e: Event)
    requires Inv(s, q)
    ensures Enabled(s, e)
    ensures var t := After(q, s, e);
      && Consistent(t, q) && t.run == s.run && t.remote == s.remote && t.archived == s.archived
      && d in t.server.drafts && MayAdopt(t.server, t.remote.recordId, d) && t.server.records.Keys <= t.server.issued
  {
    d, e := CanOpen(q, s);
    OpeningKeepsArchive(q, s, e);
    hide Inv, After, Enabled, Consistent, MayAdopt;
    StepKeepsInv(q, s, e);
    InvServer(q, After(q, s, e));
    InvParts(q, After(q, s, e));
  }

  lemma OpeningKeepsArchive(q: nat, s: System, e: Event)
    requires Enabled(s, e) && (e.ServerOpens? || e.ServerVersions?)
    ensures After(q, s, e).archived == s.archived
  {
  }

  /** The next push goes through. */
  lemma LateStoreIsPushed(q: nat, w: Web, second: Submission) returns (acts: seq<Act>, record: nat)
    requires Inv(w.core, q) && w.core.run.None? && w.core.remote.inflight.None?
    requires w.core.remote.fileSequence != [] && 0 < w.core.remote.deltaCount < q
    requires 0 in w.copies && WellFormed(w.copies[0])
    ensures Acts(q, w, acts) && CanAct(End(q, w, acts), Core(Acknowledge))
    ensures var s := End(q, w, acts).core;
      && Consistent(s, q) && AtStage(s, Accepted(record)) && s.archived == w.core.archived && s.remote.deltaCount > 0
      && s.run.value.index == Upserted(w.copies[0], second)
  {
    InvParts(q, w.core);
    hide Inv, Runs, Final, PayloadRecorded, PayloadNamed, Lift, After, Enabled, Consistent, WellFormed, Upserted,
        MayAdopt,
      Acts, End;
    var d;
    acts, d := LateStore(q, w, second);
    var u := End(q, w, acts);
    SentNames(w.core.remote, q);
    var events;
    events, record := PushUpToAcknowledgement(q, u.core, d);
    LiftedPush(q, w, acts, events);
    acts := acts + Lift(events);
  }

  /** From the start of every project with a squash limit of two or more: a handler loads, another
      submission is pushed, the handler stores its copy, and the next push is accepted with a
      record from which no bound on the sources recovers the index that was pushed. */
  lemma LateStoreBreaksTheArchive(q: nat, w: Web, first: Submission, second: Submission)
    returns (acts: seq<Act>, record: nat)
    requires StartOfWeb(w) && q >= 2 && first.id != second.id && first.id !in w.core.disk.proofs
    ensures Acts(q, w, acts) && CanAct(End(q, w, acts), Core(Acknowledge))
    ensures var s := End(q, w, acts).core;
      && AtStage(s, Accepted(record)) && record in s.server.records && second.id in s.run.value.index.proofs
      && forall bound :: !Faithful(s.server.records[record], Archived(s.run.value.index, bound), q)
  {
    hide Inv, Consistent, Acts, End, StartOfWeb, Faithful, WellFormed, CanAct;
    acts := CopyFallsBehind(q, w, first);
    var u := End(q, w, acts);
    var rest;
    rest, record := LateStoreIsPushed(q, u, second);
    ActsConcat(q, w, acts, rest);
    acts := acts + rest;
    var s := End(q, w, acts).core;
    LostKeyIsUnfaithful(q, s, record, first.id, 0);
    forall bound ensures !Faithful(s.server.records[record], Archived(s.run.value.index, bound), q) {
      LostKeyIsUnfaithful(q, s, record, first.id, bound);
    }
  }
}
