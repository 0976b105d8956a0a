/** What a push can still do from a checkpoint: it can always be finished by a server that
    cooperates, unless the client trusts a draft that is no longer open; a save can lose a
    submission; a squash writes the same name again. */
module ArchiveProgress {
  import opened Wrappers
  import opened ProjectIndex
  import opened ArchiveProtocol
  import opened ArchiveSafety

  // ----- lists of events -----

  ghost predicate Runs(q: nat, s: System, events: seq<Event>)
    decreases |events|
  {
    events == [] || (Enabled(s, events[0]) && Runs(q, After(q, s, events[0]), events[1..]))
  }

  ghost function Final(q: nat, s: System, events: seq<Event>): System
    requires Runs(q, s, events)
    decreases |events|
  {
    if events == [] then s else Final(q, After(q, s, events[0]), events[1..])
  }

  ghost function Trace(q: nat, s: System, events: seq<Event>): (states: seq<System>)
    requires Runs(q, s, events)
    ensures |states| == |events| + 1 && states[0] == s && states[|events|] == Final(q, s, events)
    decreases |events|
  {
    if events == [] then [s] else [s] + Trace(q, After(q, s, events[0]), events[1..])
  }

  /** Such a list is a run of the protocol. */
  lemma {:induction false} TraceIsRun(q: nat, s: System, events: seq<Event>)
    requires Runs(q, s, events)
    ensures ValidRun(q, Trace(q, s, events), events)
    decreases |events|
  {
    if events != [] {
      hide After, Enabled;
      var next := After(q, s, events[0]);
      TraceIsRun(q, next, events[1..]);
      var rest, states := Trace(q, next, events[1..]), Trace(q, s, events);
      forall i | 0 <= i < |events| ensures Step(q, states[i], events[i], states[i + 1]) {
        if i > 0 {
          assert Step(q, rest[i - 1], events[1..][i - 1], rest[i]);
        }
      }
    }
  }

  lemma {:induction false} RunsConcat(q: nat, s: System, a: seq<Event>, b: seq<Event>)
    requires Runs(q, s, a) && Runs(q, Final(q, s, a), b)
    ensures Runs(q, s, a + b) && Final(q, s, a + b) == Final(q, Final(q, s, a), b)
    decreases |a|
  {
    hide After, Enabled;
    if a == [] {
      assert a + b == b;
    } else {
      RunsConcat(q, After(q, s, a[0]), a[1..], b);
      assert (a + b)[1..] == a[1..] + b;
    }
  }

  lemma {:induction false} RunsSplit(q: nat, s: System, a: seq<Event>, b: seq<Event>)
    requires Runs(q, s, a + b)
    ensures Runs(q, s, a) && Runs(q, Final(q, s, a), b) && Final(q, s, a + b) == Final(q, Final(q, s, a), b)
    decreases |a|
  {
    hide After, Enabled;
    if a == [] {
      assert a + b == b;
    } else {
      assert (a + b)[1..] == a[1..] + b;
      RunsSplit(q, After(q, s, a[0]), a[1..], b);
    }
  }

  lemma RunsCons(q: nat, s: System, e: Event, rest: seq<Event>)
    requires Enabled(s, e) && Runs(q, After(q, s, e), rest)
    ensures Runs(q, s, [e] + rest) && Final(q, s, [e] + rest) == Final(q, After(q, s, e), rest)
  {
    hide After, Enabled;
    assert ([e] + rest)[1..] == rest;
  }

  lemma RunsOne(q: nat, s: System, e: Event)
    requires Enabled(s, e)
    ensures Runs(q, s, [e]) && Final(q, s, [e]) == After(q, s, e)
  {
    hide After, Enabled;
    RunsCons(q, s, e, []);
    assert [e] + [] == [e];
  }

  lemma {:induction false} RunsKeep(q: nat, s: System, events: seq<Event>)
    requires Inv(s, q) && Runs(q, s, events)
    ensures Inv(Final(q, s, events), q) && s.server.records.Keys <= Final(q, s, events).server.records.Keys
    decreases |events|
  {
    hide Inv;
    if events != [] {
      StepKeepsInv(q, s, events[0]);
      RunsKeep(q, After(q, s, events[0]), events[1..]);
    }
  }

  // ----- finishing a push -----

  lemma {:induction false} FreshId(ids: set<nat>) returns (n: nat)
    ensures n !in ids && forall i :: i in ids ==> i < n
  {
    if ids == {} {
      n := 0;
    } else {
      var i :| i in ids;
      var m := FreshId(ids - {i});
      n := if i < m then m else i + 1;
      assert ids == ids - {i} + {i};
    }
  }

  /** The client has its draft, and the server still has it open. */
  ghost predicate Holds(s: System, index: Document, d: nat, stage: Stage) {
    s.run == Some(Run(index, stage)) && s.remote.draft == Some(d) && d in s.server.drafts
  }

  function Retired(st: RemoteState, index: Document, record: nat): RemoteState {
    PushRetired(st, record, index.frontier)
  }

  lemma FinishesFromAccepted(q: nat, s: System, index: Document, record: nat)
    requires s.run == Some(Run(index, Accepted(record))) && s.remote.inflight.Some?
    ensures Runs(q, s, [Acknowledge])
    ensures var t := Final(q, s, [Acknowledge]);
            t.run == Some(Run(index, Acknowledged(record))) && t.disk == s.disk &&
                t.remote == Retired(s.remote, index, record)
  {
    RunsOne(q, s, Acknowledge);
  }

  lemma FinishesFromListed(q: nat, s: System, index: Document, d: nat, record: nat)
    requires Holds(s, index, d, Listed) && s.remote.inflight.Some?
    requires record !in s.server.issued && record !in s.server.records
    ensures Runs(q, s, [PublishDraft(record), Acknowledge])
    ensures var t := Final(q, s, [PublishDraft(record), Acknowledge]);
            t.run == Some(Run(index, Acknowledged(record))) && t.disk == s.disk &&
                t.remote == Retired(s.remote, index, record)
  {
    var t := After(q, s, PublishDraft(record));
    assert t.run == Some(Run(index, Accepted(record))) && t.remote == s.remote && t.disk == s.disk;
    hide After, Runs, Final;
    FinishesFromAccepted(q, t, index, record);
    RunsCons(q, s, PublishDraft(record), [Acknowledge]);
    assert [PublishDraft(record)] + [Acknowledge] == [PublishDraft(record), Acknowledge];
  }

  lemma FinishesFromRecorded(q: nat, s: System, index: Document, d: nat, record: nat)
    requires Holds(s, index, d, Recorded) && s.remote.inflight.Some?
    requires record !in s.server.issued && record !in s.server.records
    ensures var events := [UploadManifest, PublishDraft(record), Acknowledge];
            && Runs(q, s, events)
            && var t := Final(q, s, events);
               t.run == Some(Run(index, Acknowledged(record))) && t.disk == s.disk &&
                   t.remote == Retired(s.remote, index, record)
  {
    var t := After(q, s, UploadManifest);
    assert Holds(t, index, d, Listed) && t.remote == s.remote && t.disk == s.disk;
    assert t.server.issued == s.server.issued && t.server.records == s.server.records;
    hide After, Runs, Final;
    FinishesFromListed(q, t, index, d, record);
    RunsCons(q, s, UploadManifest, [PublishDraft(record), Acknowledge]);
    assert [UploadManifest] + [PublishDraft(record), Acknowledge] ==
        [UploadManifest, PublishDraft(record), Acknowledge];
  }

  lemma FinishesFromNamed(q: nat, s: System, index: Document, d: nat, record: nat)
    requires Holds(s, index, d, Named) && s.remote.inflight.Some?
    requires record !in s.server.issued && record !in s.server.records
    ensures var events := [UploadPayload, RecordPayload, UploadManifest, PublishDraft(record), Acknowledge];
            && Runs(q, s, events)
            && var t := Final(q, s, events);
               && t.run == Some(Run(index, Acknowledged(record))) && t.disk == s.disk
               && t.remote == Retired(PayloadRecorded(s.remote), index, record)
  {
    var t := After(q, s, UploadPayload);
    assert Holds(t, index, d, Uploaded) && t.remote == s.remote && t.disk == s.disk;
    assert t.server.issued == s.server.issued && t.server.records == s.server.records;
    var u := After(q, t, RecordPayload);
    assert Holds(u, index, d, Recorded) && u.remote == PayloadRecorded(s.remote) && u.disk == s.disk &&
        u.server == t.server;
    hide After, Runs, Final, PayloadRecorded;
    FinishesFromRecorded(q, u, index, d, record);
    RunsCons(q, t, RecordPayload, [UploadManifest, PublishDraft(record), Acknowledge]);
    RunsCons(q, s, UploadPayload, [RecordPayload] + [UploadManifest, PublishDraft(record), Acknowledge]);
    assert [UploadPayload] + ([RecordPayload] + [UploadManifest, PublishDraft(record), Acknowledge])
        == [UploadPayload, RecordPayload, UploadManifest, PublishDraft(record), Acknowledge];
  }

  function Finishing(record: nat): seq<Event> {
    [NamePayload, UploadPayload, RecordPayload, UploadManifest, PublishDraft(record), Acknowledge]
  }

  /** From an open draft the rest of the push goes through. */
  lemma PushFinishes(q: nat, s: System, index: Document, d: nat, record: nat)
    requires Holds(s, index, d, Drafted) && record !in s.server.issued && record !in s.server.records
    ensures Runs(q, s, Finishing(record))
    ensures var t := Final(q, s, Finishing(record));
            && t.run == Some(Run(index, Acknowledged(record))) && t.disk == s.disk
            && t.remote == Retired(PayloadRecorded(PayloadNamed(s.remote, q)), index, record)
  {
    var t := After(q, s, NamePayload);
    assert Holds(t, index, d, Named) && t.remote == PayloadNamed(s.remote, q) && t.disk == s.disk &&
        t.server == s.server;
    hide After, Runs, Final, PayloadRecorded, PayloadNamed;
    FinishesFromNamed(q, t, index, d, record);
    RunsCons(q, s, NamePayload, [UploadPayload, RecordPayload, UploadManifest, PublishDraft(record), Acknowledge]);
    assert [NamePayload] + [UploadPayload, RecordPayload, UploadManifest, PublishDraft(record), Acknowledge] ==
        Finishing(record);
  }

  // ----- starting it -----

  /** Taking up a draft that is open. */
  lemma StartsWith(q: nat, s: System, d: nat)
    requires s.run.None? && d in s.server.drafts
    requires s.remote.draft == Some(d) || MayAdopt(s.server, s.remote.recordId, d)
    ensures Runs(q, s, [BeginPush, CheckpointDraft(d)])
    ensures var t := Final(q, s, [BeginPush, CheckpointDraft(d)]);
            Holds(t, s.disk, d, Drafted) && t.disk == s.disk && t.server == s.server &&
                t.remote == s.remote.(draft := Some(d))
  {
    var t := After(q, s, BeginPush);
    assert t.server == s.server && t.remote == s.remote;
    RunsOne(q, t, CheckpointDraft(d));
    hide Runs, Final;
    RunsCons(q, s, BeginPush, [CheckpointDraft(d)]);
    assert [BeginPush] + [CheckpointDraft(d)] == [BeginPush, CheckpointDraft(d)];
  }

  /** The server can always open a draft the client may take up. */
  lemma CanOpen(q: nat, s: System) returns (d: nat, e: Event)
    requires Inv(s, q)
    ensures e == if s.remote.recordId.None? then ServerOpens(d) else ServerVersions(s.remote.recordId.value, d)
    ensures Enabled(s, e)
    ensures var t := After(q, s, e);
            && t.run == s.run && t.disk == s.disk && t.remote == s.remote && t.server.records == s.server.records
            && d in t.server.drafts && MayAdopt(t.server, t.remote.recordId, d)
  {
    hide Readable, Evolves, WellFormed, ShapeOk, StageOk, Descends, Grows, DraftOk, LineageOk;
    d := FreshId(s.server.issued);
    e := if s.remote.recordId.None? then ServerOpens(d) else ServerVersions(s.remote.recordId.value, d);
  }

  /** Every push of the list takes up draft `d`: `fetch_draft` always answers for it. */
  predicate UsesOnly(events: seq<Event>, d: nat) {
    forall e :: e in events && e.CheckpointDraft? ==> e.d == d
  }

  lemma DraftIsNoPayload(st: RemoteState, d: Option<nat>, q: nat, index: Document, record: nat)
    ensures Retired(PayloadRecorded(PayloadNamed(st.(draft := d), q)), index, record)
         == Retired(PayloadRecorded(PayloadNamed(st, q)), index, record)
  {
  }

  function WholePushWith(d: nat, record: nat): seq<Event> { [BeginPush, CheckpointDraft(d)] + Finishing(record) }

  lemma EventsOfPush(d: nat, record: nat)
    ensures UsesOnly(WholePushWith(d, record), d) && Acknowledge in WholePushWith(d, record)
  {
    assert WholePushWith(d, record)[7] == Acknowledge;
  }

  /** The events acknowledge the index on disk under a new record. */
  ghost predicate Finishes(q: nat, s: System, events: seq<Event>, record: nat) {
    && Runs(q, s, events) && record !in s.server.records
    && var t := Final(q, s, events);
       && t.run == Some(Run(s.disk, Acknowledged(record))) && t.disk == s.disk
       && t.remote == Retired(PayloadRecorded(PayloadNamed(s.remote, q)), s.disk, record)
  }

  lemma FinishWith(q: nat, s: System, d: nat) returns (record: nat)
    requires s.run.None? && d in s.server.drafts && s.server.records.Keys <= s.server.issued
    requires s.remote.draft == Some(d) || MayAdopt(s.server, s.remote.recordId, d)
    ensures Finishes(q, s, WholePushWith(d, record), record)
  {
    record := FreshId(s.server.issued);
    StartsWith(q, s, d);
    hide Runs, Final, PayloadRecorded, PayloadNamed, MayAdopt, Retired;
    var start := [BeginPush, CheckpointDraft(d)];
    var t := Final(q, s, start);
    PushFinishes(q, t, s.disk, d, record);
    RunsConcat(q, s, start, Finishing(record));
    DraftIsNoPayload(s.remote, Some(d), q, s.disk, record);
  }

  /** The one thing asked of the server: nothing while the checkpointed draft is open,
      otherwise to open draft `d`. */
  predicate Opens(s: System, opening: seq<Event>, d: nat) {
    if s.remote.draft.Some? && s.remote.draft.value in s.server.drafts
    then opening == [] && d == s.remote.draft.value
    else if s.remote.recordId.None? then opening == [ServerOpens(d)]
    else opening == [ServerVersions(s.remote.recordId.value, d)]
  }

  /** From every checkpoint a push can be finished. */
  lemma CheckpointCanFinish(q: nat, s: System) returns (opening: seq<Event>, d: nat, record: nat)
    requires Inv(s, q) && s.run.None?
    ensures Opens(s, opening, d) && Finishes(q, s, opening + WholePushWith(d, record), record)
  {
    hide Runs, Final, PayloadRecorded, PayloadNamed, MayAdopt, Inv, Retired, After, Enabled, WholePushWith;
    InvServer(q, s);
    if s.remote.draft.Some? && s.remote.draft.value in s.server.drafts {
      opening, d := [], s.remote.draft.value;
      record := FinishWith(q, s, d);
      assert [] + WholePushWith(d, record) == WholePushWith(d, record);
    } else {
      var e: Event;
      d, e := CanOpen(q, s);
      StepKeepsInv(q, s, e);
      var t := After(q, s, e);
      InvServer(q, t);
      record := FinishWith(q, t, d);
      RunsCons(q, s, e, WholePushWith(d, record));
      opening := [e];
    }
  }

  lemma InvServer(q: nat, s: System)
    requires Inv(s, q)
    ensures s.server.records.Keys <= s.server.issued && DraftOk(s)
  {
  }

  /** A push that never gets past its uploads. */
  ghost predicate Blocked(s: System, d: nat) {
    && s.remote.draft == Some(d) && d in s.server.issued && d !in s.server.drafts
    && (s.run.Some? ==> s.run.value.stage in {Opening, Drafted, Named})
  }

  lemma BlockedStays(q: nat, s: System, d: nat, e: Event)
    requires Blocked(s, d) && Enabled(s, e) && (e.CheckpointDraft? ==> e.d == d)
    ensures Blocked(After(q, s, e), d) && !e.UploadPayload? && !e.Acknowledge?
  {
  }

  /** A checkpointed draft that is gone or published, while GET still answers for it, makes
      every upload fail, in every run and whatever else happens. */
  lemma {:induction false} DeadDraftBlocks(q: nat, s: System, d: nat, events: seq<Event>)
    requires Blocked(s, d) && Runs(q, s, events) && UsesOnly(events, d)
    ensures Acknowledge !in events && UploadPayload !in events
    decreases |events|
  {
    if events != [] {
      hide Blocked, After, Enabled;
      BlockedStays(q, s, d, events[0]);
      DeadDraftBlocks(q, After(q, s, events[0]), d, events[1..]);
    }
  }

  lemma OpenDraftFinishes(q: nat, s: System, d: nat) returns (events: seq<Event>)
    requires Inv(s, q) && s.run.None? && s.remote.draft == Some(d) && d in s.server.drafts
    ensures Runs(q, s, events) && UsesOnly(events, d) && Acknowledge in events
  {
    hide Runs, Final, Retired, WholePushWith, UsesOnly, Inv;
    var opening, _, record := CheckpointCanFinish(q, s);
    events := WholePushWith(d, record);
    assert opening + events == events;
    EventsOfPush(d, record);
  }

  /** While GET answers for the checkpointed draft, a push can be finished exactly when the
      server still has the draft open. */
  lemma FinishesIffOpen(q: nat, s: System, d: nat)
    requires Inv(s, q) && s.run.None? && s.remote.draft == Some(d)
    ensures (exists events :: Runs(q, s, events) && UsesOnly(events, d) && Acknowledge in events) <==>
        d in s.server.drafts
  {
    InvServer(q, s);
    hide Runs, UsesOnly, Inv;
    if d in s.server.drafts {
      var _ := OpenDraftFinishes(q, s, d);
    } else {
      forall events | Runs(q, s, events) && UsesOnly(events, d) ensures Acknowledge !in events {
        DeadDraftBlocks(q, s, d, events);
      }
    }
  }

  /** The last event of a list. */
  lemma RunsLast(q: nat, s: System, events: seq<Event>, e: Event)
    requires Runs(q, s, events + [e])
    ensures Runs(q, s, events) && Enabled(Final(q, s, events), e)
    ensures Final(q, s, events + [e]) == After(q, Final(q, s, events), e)
  {
    hide After, Enabled;
    RunsSplit(q, s, events, [e]);
    var none: seq<Event> := [];
    assert [e][1..] == none;
  }

  predicate KeepsDraft(e: Event) { !e.CheckpointDraft? && !e.Acknowledge? }

  lemma {:induction false} DraftStays(q: nat, s: System, events: seq<Event>)
    requires Runs(q, s, events) && forall i :: 0 <= i < |events| ==> KeepsDraft(events[i])
    ensures Final(q, s, events).remote.draft == s.remote.draft
    decreases |events|
  {
    if events != [] {
      assert KeepsDraft(events[0]);
      assert After(q, s, events[0]).remote.draft == s.remote.draft;
      hide After, Enabled;
      DraftStays(q, After(q, s, events[0]), events[1..]);
    }
  }

  function Publishing(record: nat): seq<Event> {
    [NamePayload, UploadPayload, RecordPayload, UploadManifest] + [PublishDraft(record)]
  }

  lemma PublishingThenAcknowledge(opening: seq<Event>, d: nat, record: nat)
    ensures opening + WholePushWith(d, record) ==
        (opening + [BeginPush] + [CheckpointDraft(d)]) + Publishing(record) + [Acknowledge]
  {
  }

  lemma PublishedIsClosed(q: nat, s: System, d: nat, record: nat)
    requires Runs(q, s, Publishing(record)) && s.remote.draft == Some(d)
    ensures var t := Final(q, s, Publishing(record));
            t.remote.draft == Some(d) && d !in t.server.drafts && record in t.server.records
  {
    hide Runs, Final;
    var before := [NamePayload, UploadPayload, RecordPayload, UploadManifest];
    RunsLast(q, s, before, PublishDraft(record));
    DraftStays(q, s, before);
  }

  lemma TakesUp(q: nat, s: System, d: nat)
    requires Enabled(s, CheckpointDraft(d))
    ensures After(q, s, CheckpointDraft(d)).remote.draft == Some(d)
  {
  }

  lemma CrashBlocks(q: nat, s: System, d: nat)
    requires Inv(s, q) && s.remote.draft == Some(d) && d !in s.server.drafts
    ensures Enabled(s, Crash)
    ensures var t := After(q, s, Crash); t.run.None? && Blocked(t, d) && t.server == s.server
  {
  }

  /** The failing case occurs: from every checkpoint a push can publish its draft and crash
      before its last save, and the next one finds a checkpointed draft that is not open. */
  lemma PublishedUnseen(q: nat, s: System) returns (events: seq<Event>, d: nat, record: nat)
    requires Inv(s, q) && s.run.None?
    ensures Runs(q, s, events)
    ensures var t := Final(q, s, events);
            Inv(t, q) && t.run.None? && Blocked(t, d) && record in t.server.records && record !in s.server.records
  {
    hide Inv, Runs, Final, After, Enabled, Blocked, WholePushWith, Publishing, Retired;
    var opening: seq<Event>;
    opening, d, record := CheckpointCanFinish(q, s);
    PublishingThenAcknowledge(opening, d, record);
    var begun := opening + [BeginPush];
    var start := begun + [CheckpointDraft(d)];
    events := start + Publishing(record);
    RunsLast(q, s, events, Acknowledge);
    RunsSplit(q, s, start, Publishing(record));
    RunsLast(q, s, begun, CheckpointDraft(d));
    TakesUp(q, Final(q, s, begun), d);
    PublishedIsClosed(q, Final(q, s, start), d, record);
    RunsKeep(q, s, events);
    CrashBlocks(q, Final(q, s, events), d);
    RunsOne(q, Final(q, s, events), Crash);
    RunsConcat(q, s, events, [Crash]);
    events := events + [Crash];
    RunsKeep(q, s, events);
  }

  lemma DiscardBlocks(q: nat, s: System, index: Document, d: nat)
    requires Inv(s, q) && Holds(s, index, d, Drafted)
    ensures Enabled(s, Crash) && Enabled(After(q, s, Crash), ServerDiscards(d))
    ensures var t := After(q, After(q, s, Crash), ServerDiscards(d)); t.run.None? && Blocked(t, d)
  {
  }

  /** It also occurs when the server drops the draft between two pushes. */
  lemma DraftCanGo(q: nat, s: System) returns (events: seq<Event>, d: nat)
    requires Inv(s, q) && s.run.None?
    ensures Runs(q, s, events)
    ensures var t := Final(q, s, events); Inv(t, q) && t.run.None? && Blocked(t, d)
  {
    var e: Event;
    d, e := CanOpen(q, s);
    hide Inv, Runs, Final, After, Enabled, Blocked, Holds, MayAdopt;
    var u := After(q, s, e);
    StartsWith(q, u, d);
    var start := [BeginPush, CheckpointDraft(d)];
    RunsCons(q, s, e, start);
    events := [e] + start;
    RunsKeep(q, s, events);
    var t := Final(q, s, events);
    DiscardBlocks(q, t, u.disk, d);
    RunsOne(q, After(q, t, Crash), ServerDiscards(d));
    RunsCons(q, t, Crash, [ServerDiscards(d)]);
    RunsConcat(q, s, events, [Crash] + [ServerDiscards(d)]);
    events := events + ([Crash] + [ServerDiscards(d)]);
    RunsKeep(q, s, events);
  }

  // ----- a squash writes the same name again -----

  lemma AcknowledgedIsArchived(q: nat, s: System, record: nat)
    requires Inv(s, q) && AtStage(s, Acknowledged(record))
    ensures s.archived.Some? && s.archived.value.doc == s.run.value.index
  {
    hide Readable, Descends, ShapeOk, ServerOk, WellFormed, Evolves, LineageOk, DraftOk, ArchiveOk, Grows;
  }

  /** One whole push from a checkpoint with nothing in flight, and its save. */
  lemma WholePush(q: nat, s: System) returns (events: seq<Event>)
    requires Inv(s, q) && s.run.None? && s.remote.inflight.None?
    ensures Runs(q, s, events)
    ensures var t, sent := Final(q, s, events), PayloadRecorded(PayloadNamed(s.remote, q));
            && Inv(t, q) && t.run.None? && t.remote.inflight.None? && t.remote.recordId.Some?
            && t.remote.fileSequence == sent.fileSequence && t.remote.deltaCount == sent.deltaCount
            && t.remote.recordId.value !in s.server.records && s.server.records.Keys <= t.server.records.Keys
            && t.archived.Some? && t.archived.value.doc == s.disk && t.disk.proofs.Keys == s.disk.proofs.Keys
  {
    hide Inv, Runs, Final, PayloadRecorded, PayloadNamed;
    var opening, d, record := CheckpointCanFinish(q, s);
    events := opening + WholePushWith(d, record);
    var t := Final(q, s, events);
    RunsKeep(q, s, events);
    AcknowledgedIsArchived(q, t, record);
    var last := SaveIndex("", None);
    assert Enabled(t, last);
    EditKeepsContent(s.disk, "", Some(record), Published, None);
    RunsOne(q, t, last);
    RunsConcat(q, s, events, [last]);
    events := events + [last];
    RunsKeep(q, s, events);
  }

  lemma SentNames(st: RemoteState, q: nat)
    requires ShapeOk(st, q) && st.inflight.None? && st.fileSequence != []
    ensures var sent := PayloadRecorded(PayloadNamed(st, q));
            && sent.fileSequence != []
            && (st.deltaCount >= q ==> sent.fileSequence == [SnapshotFile(1)])
            && (st.deltaCount < q ==> sent.deltaCount == st.deltaCount + 1)
  {
    SquashReusesItsName(st, q);
    NamingKeepsShape(st, q);
  }

  /** Whatever the sequence is, enough pushes reach the next squash. */
  lemma {:induction false} NextSquash(q: nat, s: System) returns (events: seq<Event>)
    requires Inv(s, q) && s.run.None? && s.remote.inflight.None? && s.remote.fileSequence != []
    ensures Runs(q, s, events)
    ensures var t := Final(q, s, events);
            && Inv(t, q) && t.run.None? && t.remote.inflight.None? && t.remote.fileSequence == [SnapshotFile(1)]
            && t.remote.recordId.Some? && t.remote.recordId.value !in s.server.records
            && s.server.records.Keys <= t.server.records.Keys
    decreases q - s.remote.deltaCount
  {
    hide Runs, Final, PayloadRecorded, PayloadNamed;
    assert ShapeOk(s.remote, q);
    hide Inv;
    SentNames(s.remote, q);
    events := WholePush(q, s);
    if s.remote.deltaCount < q {
      var t := Final(q, s, events);
      var rest := NextSquash(q, t);
      RunsConcat(q, s, events, rest);
      events := events + rest;
    }
  }

  lemma HoldsItsSnapshot(q: nat, s: System)
    requires Inv(s, q) && s.remote.inflight.None? && s.remote.recordId.Some? &&
        s.remote.fileSequence == [SnapshotFile(1)]
    ensures s.remote.recordId.value in s.server.records
    ensures SnapshotFile(1) in s.server.records[s.remote.recordId.value].files
  {
    hide LineageOk, Grows, StageOk, ShapeOk, WellFormed, ServerOk, Evolves, Recovers, Faithful;
    assert Kept(s.remote)[0] == SnapshotFile(1);
  }

  /** From the start of every project a run reaches two published records, the second a new
      one, each the work of a squash and each holding its own snapshot_1.bin. */
  lemma SnapshotNameIsReused(q: nat, s: System) returns (first: seq<Event>, second: seq<Event>)
    requires Initial(s)
    ensures Runs(q, s, first) && Runs(q, Final(q, s, first), second)
    ensures var t := Final(q, s, first);
            var u := Final(q, t, second);
            && t.remote.fileSequence == [SnapshotFile(1)] && u.remote.fileSequence == [SnapshotFile(1)]
            && t.remote.recordId.Some? && u.remote.recordId.Some? && t.remote.recordId != u.remote.recordId
            && t.remote.recordId.value in t.server.records && u.remote.recordId.value in u.server.records
            && SnapshotFile(1) in t.server.records[t.remote.recordId.value].files
            && SnapshotFile(1) in u.server.records[u.remote.recordId.value].files
  {
    hide Runs, Final, PayloadRecorded, PayloadNamed;
    assert Inv(s, q) by { RunKeepsInv(q, [s], [], 0); }
    var start := WholePush(q, s);
    var t := Final(q, s, start);
    assert t.remote.fileSequence != [] by { NamingIsNotEmpty(s.remote, q); }
    hide Inv;
    var rest := NextSquash(q, t);
    RunsConcat(q, s, start, rest);
    first := start + rest;
    t := Final(q, s, first);
    HoldsItsSnapshot(q, t);
    second := NextSquash(q, t);
    HoldsItsSnapshot(q, Final(q, t, second));
  }

  lemma NamingIsNotEmpty(st: RemoteState, q: nat)
    ensures PayloadRecorded(PayloadNamed(st, q)).fileSequence != []
  {
  }

  // ----- submissions that arrive during a push -----

  ghost predicate BeganAt(states: seq<System>, events: seq<Event>, b: nat, k: nat) {
    && b < k < |states| && k <= |events| && events[b].BeginPush?
    && states[k].run.Some? && states[k].run.value.index == states[b].disk
    && (forall m :: b < m < k ==> !events[m].BeginPush? && !events[m].SaveIndex?)
    && (forall m :: b <= m <= k ==> states[m].disk.frontier >= states[b].disk.frontier)
  }

  ghost predicate NoneSubmitted(events: seq<Event>, b: nat, k: nat)
    requires k <= |events|
  {
    forall m :: b < m < k ==> !events[m].Submit?
  }

  /** Every push in progress began at some event, and the frontier has moved since exactly
      when something was submitted since. */
  lemma {:induction false} PushBegan(q: nat, states: seq<System>, events: seq<Event>, k: nat) returns (b: nat)
    requires ValidRun(q, states, events) && states[0].run.None? && k < |states| && states[k].run.Some?
    ensures b < k && BeganAt(states, events, b, k) && states[k].run.value.index == states[b].disk
    ensures states[k].disk.frontier == states[b].disk.frontier <==> NoneSubmitted(events, b, k)
  {
    var s, e, t := states[k - 1], events[k - 1], states[k];
    assert Step(q, s, e, t);
    if e.BeginPush? {
      b := k - 1;
    } else {
      StepOfPush(q, s, e, t);
      hide Step, ValidRun, After, Enabled;
      b := PushBegan(q, states, events, k - 1);
    }
  }

  /** While a push goes on, only submissions move the frontier. */
  lemma StepOfPush(q: nat, s: System, e: Event, t: System)
    requires Step(q, s, e, t) && t.run.Some? && !e.BeginPush?
    ensures s.run.Some? && s.run.value.index == t.run.value.index && !e.SaveIndex?
    ensures t.disk.frontier == (if e.Submit? then s.disk.frontier + 1 else s.disk.frontier)
  {
  }

  lemma SavedDocument(s: System, t: System, q: nat, e: Event)
    requires Inv(s, q) && e.SaveIndex? && Step(q, s, e, t)
    ensures t.disk.frontier == s.run.value.index.frontier && WellFormed(t.disk)
    ensures Evolves(s.run.value.index, t.disk)
    ensures Evolves(s.disk, t.disk) <==> s.disk.frontier == s.run.value.index.frontier
  {
    hide ShapeOk, ArchiveOk, LineageOk, ServerOk, DraftOk, StatusEdited;
    StatusEditEvolves(s.run.value.index, e.proofId, Some(s.run.value.stage.record), Published, e.doi);
    EditKeepsContent(s.run.value.index, e.proofId, Some(s.run.value.stage.record), Published, e.doi);
    if s.disk.frontier == s.run.value.index.frontier {
      SameFrontier(s.run.value.index, s.disk);
      EvolvesTransitive(s.disk, s.run.value.index, t.disk);
    }
  }

  /** A later version with the same frontier is the same in content. */
  lemma SameFrontier(a: Document, b: Document)
    requires Evolves(a, b) && WellFormed(a) && WellFormed(b) && a.frontier == b.frontier
    ensures Evolves(b, a)
  {
    forall id | id in b.proofs ensures id in a.proofs && SameContent(b.proofs[id], a.proofs[id]) {
      assert b.proofs[id].seqNo <= a.frontier;
    }
  }

  /** The save that ends a push loses something exactly when something was submitted since
      the push began, and then it loses all of it. */
  lemma SaveLosesIff(q: nat, states: seq<System>, events: seq<Event>, k: nat) returns (b: nat)
    requires ValidRun(q, states, events) && Initial(states[0]) && k < |events| && events[k].SaveIndex?
    ensures BeganAt(states, events, b, k)
    ensures Evolves(states[k].disk, states[k + 1].disk) <==> NoneSubmitted(events, b, k)
    ensures forall m :: b < m < k && events[m].Submit? ==> !Held(states[k + 1].disk, states[m + 1].disk, events[m].s.id)
  {
    assert Step(q, states[k], events[k], states[k + 1]);
    RunKeepsInv(q, states, events, k);
    SavedDocument(states[k], states[k + 1], q, events[k]);
    b := PushBegan(q, states, events, k);
    forall m | b < m < k && events[m].Submit?
      ensures !Held(states[k + 1].disk, states[m + 1].disk, events[m].s.id)
    {
      assert Step(q, states[m], events[m], states[m + 1]);
    }
  }

  /** `d` has proof `id` at the revision it has in `since`. */
  predicate Held(d: Document, since: Document, id: string) {
    id in d.proofs && id in since.proofs && d.proofs[id].seqNo == since.proofs[id].seqNo
  }

  ghost predicate SavedOver(states: seq<System>, events: seq<Event>, i: nat, j: nat, b: nat, k: nat) {
    b < i <= k < j && j < |states| && j <= |events| && events[k].SaveIndex? && BeganAt(states, events, b, k)
  }

  lemma SaveEndsAPush(q: nat, s: System, e: Event, t: System)
    requires Step(q, s, e, t)
    ensures e.SaveIndex? ==> s.run.Some?
  {
  }

  /** The version before a step, or before the push that the step saves, is kept by it. */
  lemma LastStep(q: nat, states: seq<System>, events: seq<Event>, j: nat) returns (m: nat)
    requires ValidRun(q, states, events) && Initial(states[0]) && 0 < j < |states|
    ensures m < j && Evolves(states[m].disk, states[j].disk)
    ensures m == j - 1 || (events[j - 1].SaveIndex? && BeganAt(states, events, m, j - 1))
  {
    hide Evolves, Inv, BeganAt, NoneSubmitted, After, Enabled, ServerOk, WellFormed;
    var s, e, t := states[j - 1], events[j - 1], states[j];
    assert Step(q, s, e, t);
    RunKeepsInv(q, states, events, j - 1);
    hide Step, ValidRun, Initial;
    if e.SaveIndex? {
      SaveEndsAPush(q, s, e, t);
      SavedDocument(s, t, q, e);
      m := PushBegan(q, states, events, j - 1);
    } else {
      m := j - 1;
      IndexGrows(q, s, e, t);
    }
  }

  /** What the index held at i it still holds at j, unless a push begun before i was saved in between. */
  lemma {:induction false} OnlyAnOlderPushLoses(q: nat, states: seq<System>, events: seq<Event>, i: nat, j: nat)
    requires ValidRun(q, states, events) && Initial(states[0]) && i <= j < |states|
    ensures Evolves(states[i].disk, states[j].disk) || exists b, k :: SavedOver(states, events, i, j, b, k)
    decreases j
  {
    hide Evolves, Initial, BeganAt, Step;
    if i == j {
      EvolvesReflexive(states[i].disk);
    } else {
      var m := LastStep(q, states, events, j);
      if m < i {
        assert SavedOver(states, events, i, j, m, j - 1);
      } else {
        OnlyAnOlderPushLoses(q, states, events, i, m);
        if Evolves(states[i].disk, states[m].disk) {
          EvolvesTransitive(states[i].disk, states[m].disk, states[j].disk);
        } else {
          var b, k :| SavedOver(states, events, i, m, b, k);
          assert SavedOver(states, events, i, j, b, k);
        }
      }
    }
  }

  lemma IndexGrows(q: nat, s: System, e: Event, t: System)
    requires Inv(s, q) && Step(q, s, e, t) && !e.SaveIndex?
    ensures Evolves(s.disk, t.disk)
  {
    hide ShapeOk, ArchiveOk, LineageOk, ServerOk, DraftOk, StageOk, Grows, Upserted, StatusEdited, Evolves;
    if e.Submit? {
      UpsertEvolves(s.disk, e.s);
    } else if e.EditStatus? {
      StatusEditEvolves(s.disk, e.id, e.newRecord, e.newState, e.newDoi);
    } else {
      EvolvesReflexive(s.disk);
    }
  }

  /** It can happen from every checkpoint: a submission between the acknowledgement and the
      save of a push is on disk before the save and gone after it. */
  lemma SubmissionCanBeLost(q: nat, s: System, sub: Submission, id: string) returns (events: seq<Event>)
    requires Inv(s, q) && s.run.None?
    ensures Runs(q, s, events + [Submit(sub)])
    ensures var before := Final(q, s, events + [Submit(sub)]);
            && Enabled(before, SaveIndex(id, None))
            && var after := After(q, before, SaveIndex(id, None));
               Held(before.disk, Upserted(s.disk, sub), sub.id) && !Held(after.disk, before.disk, sub.id)
  {
    InvDisk(q, s);
    hide Runs, Final, PayloadRecorded, PayloadNamed, Inv, Retired, After, Enabled, Upserted, Held;
    var opening, d, record := CheckpointCanFinish(q, s);
    events := opening + WholePushWith(d, record);
    var t := Final(q, s, events);
    SubmittedThenSaved(q, t, s.disk, record, sub, id);
    RunsOne(q, t, Submit(sub));
    RunsConcat(q, s, events, [Submit(sub)]);
  }

  lemma SubmittedThenSaved(q: nat, t: System, index: Document, record: nat, sub: Submission, id: string)
    requires t.run == Some(Run(index, Acknowledged(record))) && t.disk == index && WellFormed(index)
    ensures Enabled(t, Submit(sub))
    ensures var before := After(q, t, Submit(sub));
            && Enabled(before, SaveIndex(id, None))
            && var after := After(q, before, SaveIndex(id, None));
               Held(before.disk, Upserted(index, sub), sub.id) && !Held(after.disk, before.disk, sub.id)
  {
    StatusEditEvolves(index, id, Some(record), Published, None);
  }

  lemma InvDisk(q: nat, s: System)
    requires Inv(s, q)
    ensures WellFormed(s.disk)
  {
  }
}
