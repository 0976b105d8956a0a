/** The project index of `mm0web/src/store.rs`: upserts, the snapshot and delta
    encoders, and the replay a reader runs over a published deposit.

    JSON is the identity on the modelled fields, so a file body is kept as a
    value.  A delta carries no sources, and replay gives such a proof empty ones. */
module ProjectIndex {
  import opened Wrappers

  datatype PublishState = Verified | Queued | Published | PublishFailed

  datatype Proof = Proof(
    title: string, fingerprint: string, seqNo: nat, verified: bool,
    mm0: string, mm1: string,
    record: Option<nat>, state: PublishState, doi: Option<string>, createdAt: nat)

  datatype Document = Document(frontier: nat, proofs: map<string, Proof>)

  /** What a submission hands to `upsert`: the derived id and fingerprint are inputs. */
  datatype Submission = Submission(
    id: string, title: string, fingerprint: string, mm0: string, mm1: string, now: nat)

  /** A file of a deposit. `Bytes` stands for content that is not JSON. */
  datatype FileBody =
    | Snapshot(doc: Document)
    | Delta(baseSeq: nat, frontier: nat, changed: map<string, Proof>)
    | Manifest(fileSequence: seq<FileName>, lastFrontier: nat)
    | Bytes

  datatype FileName = ManifestFile | SnapshotFile(n: nat) | DeltaFile(n: nat)

  // ----- the document -----

  /** Every proof's seq lies in 1..frontier, and the frontier is some proof's seq. */
  ghost predicate WellFormed(d: Document) {
    && (forall id :: id in d.proofs ==> 1 <= d.proofs[id].seqNo <= d.frontier)
    && (d.frontier == 0 || exists id :: id in d.proofs && d.proofs[id].seqNo == d.frontier)
  }

  /** The fields a reader of the deposit gets back for every proof. */
  predicate SameIdentity(p: Proof, q: Proof) {
    p.title == q.title && p.fingerprint == q.fingerprint && p.seqNo == q.seqNo &&
    p.verified == q.verified && p.createdAt == q.createdAt
  }

  predicate SameContent(p: Proof, q: Proof) {
    SameIdentity(p, q) && p.mm0 == q.mm0 && p.mm1 == q.mm1
  }

  /** `b` is a later version of `a`: nothing is dropped, and whatever has a seq
      that `a` already covered is unchanged in content. */
  ghost predicate Evolves(a: Document, b: Document) {
    && a.frontier <= b.frontier
    && a.proofs.Keys <= b.proofs.Keys
    && forall id :: id in b.proofs && b.proofs[id].seqNo <= a.frontier ==>
         id in a.proofs && SameContent(a.proofs[id], b.proofs[id])
  }

  function Upserted(d: Document, s: Submission): Document {
    var prev := if s.id in d.proofs then Some(d.proofs[s.id]) else None;
    var proof := Proof(
      s.title, s.fingerprint, d.frontier + 1, true, s.mm0, s.mm1,
      if prev.Some? then prev.value.record else None,
      Verified,
      if prev.Some? then prev.value.doi else None,
      if prev.Some? && prev.value.createdAt != 0 then prev.value.createdAt else s.now);
    Document(d.frontier + 1, d.proofs[s.id := proof])
  }

  /** The edits of the web layer and the worker that do not bump the frontier. */
  function StatusEdited(d: Document, id: string, record: Option<nat>, state: PublishState,
          doi: Option<string>): Document {
    if id in d.proofs
    then d.(proofs := d.proofs[id := d.proofs[id].(record := record, state := state, doi := doi)])
    else d
  }

  /** What a submission does to the document: its entry carries what was submitted under the next
      seq and is verified only; a revision keeps its record, DOI and clock, a new proof starts
      without them; and no other entry changes. */
  ghost predicate Submitted(a: Document, s: Submission, b: Document) {
    && b.frontier == a.frontier + 1 && b.proofs.Keys == a.proofs.Keys + {s.id}
    && (forall id :: id in a.proofs && id != s.id ==> b.proofs[id] == a.proofs[id])
    && var p := b.proofs[s.id];
       && p.title == s.title && p.fingerprint == s.fingerprint && p.mm0 == s.mm0 && p.mm1 == s.mm1
       && p.seqNo == b.frontier && p.verified && p.state == Verified
       && (s.id in a.proofs ==> p.record == a.proofs[s.id].record && p.doi == a.proofs[s.id].doi)
       && (s.id !in a.proofs ==> p.record.None? && p.doi.None?)
       && (if s.id in a.proofs && a.proofs[s.id].createdAt > 0 then p.createdAt == a.proofs[s.id].createdAt
           else p.createdAt == s.now)
  }

  lemma UpsertIsSubmission(a: Document, s: Submission, b: Document)
    ensures Submitted(a, s, b) <==> b == Upserted(a, s)
  {
    var u := Upserted(a, s);
    if Submitted(a, s, b) {
      assert b.proofs[s.id] == u.proofs[s.id];
      assert b.proofs == u.proofs;
    }
  }

  /** What an edit of the status does: one entry that exists gets these three fields, its content
      stays, and so does everything else. */
  ghost predicate Edited(a: Document, id: string, record: Option<nat>, state: PublishState, doi: Option<string>,
                         b: Document) {
    && b.frontier == a.frontier && b.proofs.Keys == a.proofs.Keys
    && (forall k :: k in a.proofs && k != id ==> b.proofs[k] == a.proofs[k])
    && (id in a.proofs ==>
        SameContent(a.proofs[id], b.proofs[id]) &&
        b.proofs[id].record == record && b.proofs[id].state == state && b.proofs[id].doi == doi)
  }

  lemma StatusEditIsEdit(a: Document, id: string, record: Option<nat>, state: PublishState, doi: Option<string>,
                         b: Document)
    ensures Edited(a, id, record, state, doi, b) <==> b == StatusEdited(a, id, record, state, doi)
  {
    var u := StatusEdited(a, id, record, state, doi);
    if Edited(a, id, record, state, doi, b) {
      if id in a.proofs { assert b.proofs[id] == u.proofs[id]; }
      assert b.proofs == u.proofs;
    }
  }

  lemma EvolvesTransitive(a: Document, b: Document, c: Document)
    requires Evolves(a, b) && Evolves(b, c)
    ensures Evolves(a, c)
  {
  }

  lemma UpsertEvolves(d: Document, s: Submission)
    requires WellFormed(d)
    ensures WellFormed(Upserted(d, s)) && Evolves(d, Upserted(d, s))
    ensures forall id :: id in d.proofs ==> d.proofs[id].seqNo < Upserted(d, s).proofs[s.id].seqNo
  {
    var u := Upserted(d, s);
    assert s.id in u.proofs && u.proofs[s.id].seqNo == u.frontier;
  }

  lemma EditKeepsContent(d: Document, id: string, record: Option<nat>, state: PublishState, doi: Option<string>)
    ensures var u := StatusEdited(d, id, record, state, doi);
            && u.frontier == d.frontier && u.proofs.Keys == d.proofs.Keys
            && forall k :: k in d.proofs ==>
                u.proofs[k].seqNo == d.proofs[k].seqNo && SameContent(d.proofs[k], u.proofs[k])
  {
  }

  lemma StatusEditEvolves(d: Document, id: string, record: Option<nat>, state: PublishState, doi: Option<string>)
    requires WellFormed(d)
    ensures WellFormed(StatusEdited(d, id, record, state, doi))
    ensures Evolves(d, StatusEdited(d, id, record, state, doi))
  {
    var u := StatusEdited(d, id, record, state, doi);
    EditKeepsContent(d, id, record, state, doi);
    hide StatusEdited, SameIdentity;
    if d.frontier != 0 {
      var top :| top in d.proofs && d.proofs[top].seqNo == d.frontier;
      assert u.proofs[top].seqNo == u.frontier;
    }
  }

  /** The index object, changed in place. */
  class Index {
    var doc: Document

    constructor ()
      ensures doc == Document(0, map[])
    {
      doc := Document(0, map[]);
    }

    method Upsert(s: Submission) returns (id: string)
      requires WellFormed(doc)
      modifies this
      ensures id == s.id && doc == Upserted(old(doc), s) && Submitted(old(doc), s, doc)
      ensures WellFormed(doc) && Evolves(old(doc), doc)
    {
      UpsertEvolves(doc, s);
      UpsertIsSubmission(doc, s, Upserted(doc, s));
      id := s.id;
      var record: Option<nat>, doi: Option<string>, createdAt := None, None, s.now;
      if id in doc.proofs {
        var prev := doc.proofs[id];
        record, doi := prev.record, prev.doi;
        if prev.createdAt != 0 { createdAt := prev.createdAt; }
      }
      doc := doc.(frontier := doc.frontier + 1);
      var proof := Proof(s.title, s.fingerprint, doc.frontier, true, s.mm0, s.mm1, record, Verified, doi, createdAt);
      doc := doc.(proofs := doc.proofs[id := proof]);
    }
  }

  // ----- encoders -----

  function EncodeSnapshot(d: Document): FileBody { Snapshot(d) }

  /** The wire form inside a delta; a reader defaults the missing sources to "". */
  function WithoutSources(p: Proof): Proof { p.(mm0 := "", mm1 := "") }

  function EncodeDelta(d: Document, baseSeq: nat): FileBody {
    Delta(baseSeq, d.frontier, map id | id in d.proofs && d.proofs[id].seqNo > baseSeq :: WithoutSources(d.proofs[id]))
  }

  /** The `proofs` object of a file, as `Proof::from_json` reads it. */
  function Entries(f: FileBody): map<string, Proof> {
    match f
    case Snapshot(d) => d.proofs
    case Delta(_, _, changed) => changed
    case Manifest(_, _) => map[]
    case Bytes => map[]
  }

  // ----- replay -----

  function Overlay(files: seq<FileBody>): map<string, Proof> {
    if |files| == 0 then map[]
    else Overlay(files[..|files| - 1]) + Entries(files[|files| - 1])
  }

  /** `top` is the largest seq any of the files mentions, 0 when there is none. */
  ghost predicate TopSeq(files: seq<FileBody>, top: nat) {
    && (forall i, id :: 0 <= i < |files| && id in Entries(files[i]) ==> Entries(files[i])[id].seqNo <= top)
    && (top == 0 || exists i, id :: 0 <= i < |files| && id in Entries(files[i]) && Entries(files[i])[id].seqNo == top)
  }

  ghost predicate Replays(files: seq<FileBody>, d: Document) {
    (forall f :: f in files ==> !f.Bytes?) && d.proofs == Overlay(files) && TopSeq(files, d.frontier)
  }

  /** One file of the reader's loop: its entries, in any order. */
  method ApplyFile(d: Document, entries: map<string, Proof>) returns (r: Document)
    ensures r.proofs == d.proofs + entries
    ensures d.frontier <= r.frontier && forall id :: id in entries ==> entries[id].seqNo <= r.frontier
    ensures r.frontier == d.frontier || exists id :: id in entries && entries[id].seqNo == r.frontier
  {
    r := d;
    var todo := entries.Keys;
    while todo != {}
      invariant todo <= entries.Keys
      invariant r.proofs == d.proofs + (entries - todo)
      invariant d.frontier <= r.frontier
      invariant forall id :: id in entries && id !in todo ==> entries[id].seqNo <= r.frontier
      invariant r.frontier == d.frontier || exists id :: id in entries && entries[id].seqNo == r.frontier
      decreases todo
    {
      var id :| id in todo;
      var p := entries[id];
      if r.frontier < p.seqNo { r := r.(frontier := p.seqNo); }
      r := r.(proofs := r.proofs[id := p]);
      assert entries - (todo - {id}) == (entries - todo)[id := p];
      todo := todo - {id};
    }
    assert entries - {} == entries;
  }

  /** The reader's loop over the downloaded files, in manifest order. */
  method Replay(files: seq<FileBody>) returns (r: Result<Document>)
    ensures r.Ok? <==> forall f :: f in files ==> !f.Bytes?
    ensures r.Ok? ==> Replays(files, r.value)
  {
    var d := Document(0, map[]);
    for i := 0 to |files|
      invariant forall f :: f in files[..i] ==> !f.Bytes?
      invariant d.proofs == Overlay(files[..i])
      invariant TopSeq(files[..i], d.frontier)
    {
      if files[i].Bytes? { return Err("file is not JSON"); }
      assert files[..i + 1] == files[..i] + [files[i]];
      var next := ApplyFile(d, Entries(files[i]));
      TopSeqExtend(files[..i], files[i], d.frontier, next.frontier);
      OverlayExtend(files[..i], files[i]);
      d := next;
    }
    assert files[..|files|] == files;
    return Ok(d);
  }

  lemma OverlayExtend(files: seq<FileBody>, f: FileBody)
    ensures Overlay(files + [f]) == Overlay(files) + Entries(f)
  {
    assert (files + [f])[..|files|] == files;
  }

  lemma TopSeqExtend(files: seq<FileBody>, f: FileBody, a: nat, b: nat)
    requires TopSeq(files, a) && a <= b
    requires forall id :: id in Entries(f) ==> Entries(f)[id].seqNo <= b
    requires b == a || exists id :: id in Entries(f) && Entries(f)[id].seqNo == b
    ensures TopSeq(files + [f], b)
  {
    var all := files + [f];
    if b != 0 {
      if b == a {
        var i, id :| 0 <= i < |files| && id in Entries(files[i]) && Entries(files[i])[id].seqNo == a;
        assert id in Entries(all[i]);
      } else {
        var id :| id in Entries(f) && Entries(f)[id].seqNo == b;
        assert id in Entries(all[|files|]);
      }
    }
  }

  /** Replay is deterministic: the relation has one solution. */
  lemma ReplayUnique(files: seq<FileBody>, d: Document, e: Document)
    requires Replays(files, d) && Replays(files, e)
    ensures d == e
  {
  }

  // ----- what a replayed chain agrees with -----

  function Min(a: nat, b: nat): nat { if a <= b then a else b }

  /** `m` has the keys and identity fields of `d`, its sources for every proof
      whose seq is at most `bound`, and empty sources for every other proof. */
  ghost predicate Mirrors(m: map<string, Proof>, d: Document, bound: nat) {
    && m.Keys == d.proofs.Keys
    && forall id :: id in m ==>
         && SameIdentity(m[id], d.proofs[id])
         && m[id].mm0 == (if d.proofs[id].seqNo <= bound then d.proofs[id].mm0 else "")
         && m[id].mm1 == (if d.proofs[id].seqNo <= bound then d.proofs[id].mm1 else "")
  }

  /** Replaying `files` gives `d` on keys, frontier and identity fields. */
  ghost predicate Recovers(files: seq<FileBody>, d: Document, bound: nat) {
    (forall f :: f in files ==> !f.Bytes?) && Mirrors(Overlay(files), d, bound) && TopSeq(files, d.frontier)
  }

  lemma SnapshotRecovers(d: Document)
    requires WellFormed(d)
    ensures Recovers([EncodeSnapshot(d)], d, d.frontier)
  {
    var files := [EncodeSnapshot(d)];
    assert files[..0] == [];
    assert Overlay(files) == d.proofs;
    if d.frontier != 0 {
      var id :| id in d.proofs && d.proofs[id].seqNo == d.frontier;
      assert id in Entries(files[0]);
    }
  }

  lemma DeltaMirrors(m: map<string, Proof>, a: Document, bound: nat, b: Document, base: nat)
    requires Mirrors(m, a, bound) && Evolves(a, b)
    requires base <= a.frontier
    ensures Mirrors(m + Entries(EncodeDelta(b, base)), b, Min(bound, base))
  {
    var changed := Entries(EncodeDelta(b, base));
    var n := m + changed;
    assert n.Keys == b.proofs.Keys;
    forall id | id in n
      ensures id in changed <==> b.proofs[id].seqNo > base
      ensures id in changed ==> n[id] == WithoutSources(b.proofs[id])
      ensures id !in changed ==> n[id] == m[id] && SameContent(a.proofs[id], b.proofs[id])
    {
    }
  }

  lemma DeltaTopSeq(files: seq<FileBody>, a: nat, b: Document, base: nat)
    requires TopSeq(files, a) && base <= a <= b.frontier && WellFormed(b)
    ensures TopSeq(files + [EncodeDelta(b, base)], b.frontier)
  {
    var f := EncodeDelta(b, base);
    if b.frontier > a {
      var id :| id in b.proofs && b.proofs[id].seqNo == b.frontier;
      assert id in Entries(f) && Entries(f)[id].seqNo == b.frontier;
    }
    TopSeqExtend(files, f, a, b.frontier);
  }

  /** Everything a reader of `a` can recover is still there in `b`, and whatever `b` has at
      an old seq is what `a` had. */
  ghost predicate Continues(a: Document, bound: nat, b: Document) {
    && a.frontier <= b.frontier && a.proofs.Keys <= b.proofs.Keys
    && forall id :: id in b.proofs && b.proofs[id].seqNo <= a.frontier ==>
         && id in a.proofs && SameIdentity(a.proofs[id], b.proofs[id])
         && (b.proofs[id].seqNo <= bound ==>
               a.proofs[id].mm0 == b.proofs[id].mm0 && a.proofs[id].mm1 == b.proofs[id].mm1)
  }

  lemma EvolvesContinues(a: Document, bound: nat, b: Document)
    requires Evolves(a, b)
    ensures Continues(a, bound, b)
  {
  }

  /** What the overlay of a delta holds under `id`. */
  lemma OverlaidEntry(m: map<string, Proof>, b: Document, base: nat, id: string)
    requires id in b.proofs
    ensures var n := m + Entries(EncodeDelta(b, base));
      && (b.proofs[id].seqNo > base ==> id in n && n[id] == WithoutSources(b.proofs[id]))
      && (b.proofs[id].seqNo <= base ==> (id in n <==> id in m) && (id in n ==> n[id] == m[id]))
  {
  }

  lemma OverlaidKeys(m: map<string, Proof>, b: Document, base: nat)
    ensures var n := m + Entries(EncodeDelta(b, base));
      m.Keys <= n.Keys && forall id :: id in n && id !in m ==> id in b.proofs
  {
  }

  /** `n` is what overlaying the delta makes of `m`. */
  ghost predicate Overlaid(m: map<string, Proof>, b: Document, base: nat, n: map<string, Proof>) {
    && m.Keys <= n.Keys && (forall id :: id in n && id !in m ==> id in b.proofs)
    && forall id :: id in b.proofs ==>
         && (b.proofs[id].seqNo > base ==> id in n && n[id] == WithoutSources(b.proofs[id]))
         && (b.proofs[id].seqNo <= base ==> (id in n <==> id in m) && (id in n ==> n[id] == m[id]))
  }

  lemma DeltaOverlays(m: map<string, Proof>, b: Document, base: nat)
    ensures Overlaid(m, b, base, m + Entries(EncodeDelta(b, base)))
  {
    OverlaidKeys(m, b, base);
    forall id | id in b.proofs { OverlaidEntry(m, b, base, id); }
  }

  lemma MirroredContinues(m: map<string, Proof>, a: Document, bound: nat, b: Document, n: map<string, Proof>)
    requires Mirrors(m, a, bound) && a.frontier <= b.frontier && Overlaid(m, b, a.frontier, n)
    requires Mirrors(n, b, Min(bound, a.frontier))
    ensures Continues(a, bound, b)
  {
  }

  lemma ContinuedMirrors(m: map<string, Proof>, a: Document, bound: nat, b: Document, n: map<string, Proof>)
    requires Mirrors(m, a, bound) && Overlaid(m, b, a.frontier, n) && Continues(a, bound, b)
    ensures Mirrors(n, b, Min(bound, a.frontier))
  {
    assert n.Keys == b.proofs.Keys;
  }

  lemma DeltaMirrorsIff(m: map<string, Proof>, a: Document, bound: nat, b: Document)
    requires Mirrors(m, a, bound) && a.frontier <= b.frontier
    ensures Mirrors(m + Entries(EncodeDelta(b, a.frontier)), b, Min(bound, a.frontier)) <==> Continues(a, bound, b)
  {
    hide Mirrors, Continues, Overlaid, EncodeDelta, Entries;
    var n := m + Entries(EncodeDelta(b, a.frontier));
    DeltaOverlays(m, b, a.frontier);
    if Continues(a, bound, b) { ContinuedMirrors(m, a, bound, b, n); }
    if Mirrors(n, b, Min(bound, a.frontier)) { MirroredContinues(m, a, bound, b, n); }
  }

  /** A delta against the previous document replays to the new one exactly when the new one
      continues it. */
  lemma DeltaRecoversIff(files: seq<FileBody>, a: Document, bound: nat, b: Document)
    requires Recovers(files, a, bound) && WellFormed(b)
    ensures Recovers(files + [EncodeDelta(b, a.frontier)], b, Min(bound, a.frontier)) <==> Continues(a, bound, b)
  {
    var f := EncodeDelta(b, a.frontier);
    OverlayExtend(files, f);
    hide Mirrors, Overlay;
    if a.frontier <= b.frontier {
      DeltaMirrorsIff(Overlay(files), a, bound, b);
      DeltaTopSeq(files, a.frontier, b, a.frontier);
      assert forall g :: g in files + [f] ==> g in files || g == f;
    } else {
      OldTopStays(files, a.frontier, f);
    }
  }

  /** The largest seq of the earlier files is still mentioned. */
  lemma OldTopStays(files: seq<FileBody>, a: nat, f: FileBody)
    requires TopSeq(files, a)
    ensures forall top :: TopSeq(files + [f], top) ==> a <= top
  {
    if a != 0 {
      var i, id :| 0 <= i < |files| && id in Entries(files[i]) && Entries(files[i])[id].seqNo == a;
      assert (files + [f])[i] == files[i];
    }
  }

  /** Whatever the bound, a document that lost a key of the previous one is not recovered. */
  lemma LostKeyIsNotRecovered(files: seq<FileBody>, a: Document, bound: nat, f: FileBody, b: Document, id: string,
          any: nat)
    requires Recovers(files, a, bound) && id in a.proofs && id !in b.proofs
    ensures !Recovers(files + [f], b, any)
  {
    OverlayExtend(files, f);
  }

  /** One more delta, against any base the earlier files already cover. */
  lemma DeltaRecovers(files: seq<FileBody>, a: Document, bound: nat, b: Document, base: nat)
    requires Recovers(files, a, bound) && Evolves(a, b) && WellFormed(b)
    requires base <= a.frontier
    ensures Recovers(files + [EncodeDelta(b, base)], b, Min(bound, base))
  {
    var f := EncodeDelta(b, base);
    assert Mirrors(Overlay(files + [f]), b, Min(bound, base)) by {
      DeltaMirrors(Overlay(files), a, bound, b, base);
      OverlayExtend(files, f);
    }
    assert TopSeq(files + [f], b.frontier) by { DeltaTopSeq(files, a.frontier, b, base); }
    assert forall g :: g in files + [f] ==> g in files || g == f;
  }

  /** A snapshot of docs[0], then one delta a push. Bases may overlap earlier pushes. */
  ghost predicate PushChain(docs: seq<Document>, bases: seq<nat>) {
    && 0 < |docs| == |bases|
    && (forall i :: 0 <= i < |docs| ==> WellFormed(docs[i]))
    && (forall i :: 0 < i < |docs| ==> Evolves(docs[i - 1], docs[i]) && bases[i] <= docs[i - 1].frontier)
  }

  function ChainFiles(docs: seq<Document>, bases: seq<nat>): seq<FileBody>
    requires 0 < |docs| == |bases|
  {
    if |docs| == 1 then [EncodeSnapshot(docs[0])]
    else ChainFiles(docs[..|docs| - 1], bases[..|docs| - 1]) + [EncodeDelta(docs[|docs| - 1], bases[|docs| - 1])]
  }

  /** The largest seq for which the reader still has the sources. */
  function SourceBound(docs: seq<Document>, bases: seq<nat>): nat
    requires 0 < |docs| == |bases|
  {
    if |docs| == 1 then docs[0].frontier
    else Min(SourceBound(docs[..|docs| - 1], bases[..|docs| - 1]), bases[|docs| - 1])
  }

  lemma ChainPrefix(docs: seq<Document>, bases: seq<nat>)
    requires PushChain(docs, bases) && |docs| > 1
    ensures var n := |docs| - 1;
            && PushChain(docs[..n], bases[..n])
            && Evolves(docs[n - 1], docs[n]) && WellFormed(docs[n]) && bases[n] <= docs[n - 1].frontier
  {
    hide WellFormed, Evolves;
  }

  lemma {:induction false} ChainRecovers(docs: seq<Document>, bases: seq<nat>)
    requires PushChain(docs, bases)
    ensures Recovers(ChainFiles(docs, bases), docs[|docs| - 1], SourceBound(docs, bases))
    decreases |docs|
  {
    var n := |docs| - 1;
    if n == 0 {
      SnapshotRecovers(docs[0]);
    } else {
      ChainPrefix(docs, bases);
      var d, b := docs[..n], bases[..n];
      assert ChainFiles(docs, bases) == ChainFiles(d, b) + [EncodeDelta(docs[n], bases[n])];
      assert SourceBound(docs, bases) == Min(SourceBound(d, b), bases[n]) && d[|d| - 1] == docs[n - 1];
      hide *;
      ChainRecovers(d, b);
      DeltaRecovers(ChainFiles(d, b), docs[n - 1], SourceBound(d, b), docs[n], bases[n]);
    }
  }
}
