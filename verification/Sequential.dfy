/** The engine of `decide_core/src/lib.rs` and the two-stage sequence of
    `decide_core/src/sequential.rs`.  The numerics of a fit are parameters: a function
    of the accumulated stream, which is what the sums of `RidgeHead` determine. */
module Sequential {
  import opened Wrappers

  type Vec = seq<real>

  datatype Mode = Anacp | Ananc

  datatype Config = Config(version: string, embeddingDim: nat, projectedDim: nat, heads: nat, mode: Mode,
      lambda: real, alpha: real)

  /** One accumulated sample: its class id and its embedding. */
  datatype Observation = Observation(id: nat, x: Vec)

  /** The maps solved for and the prototypes built from them, one of each a head. */
  datatype Fit = Fit(thetas: seq<seq<Vec>>, prototypes: seq<seq<Vec>>)

  datatype Numerics = Numerics(
    solve: (Config, seq<Observation>) -> Result<Fit>,
    feature: (Config, Fit, Vec) -> Vec,
    score: (Config, Fit, Vec) -> Vec)

  predicate Configured(c: Config) { c.embeddingDim > 0 && c.projectedDim > 0 && 1 <= c.heads <= 3 }

  class DecideCore {
    const config: Config
    const numerics: Numerics
    var labels: seq<string>
    var labelIds: map<string, nat>
    var stats: seq<Observation>
    var solved: Option<Fit>
    var readoutLabels: seq<string>
    var fitted: bool
    /** How many labels were registered since the last solve. */
    ghost var late: nat

    ghost predicate Valid()
      reads this
    {
      && (forall i :: 0 <= i < |labels| ==> labels[i] in labelIds && labelIds[labels[i]] == i)
      && (forall l :: l in labelIds ==> labelIds[l] < |labels| && labels[labelIds[l]] == l)
      && (forall o :: o in stats ==> o.id < |labels| && |o.x| == config.embeddingDim)
      && (fitted ==> solved.Some? && numerics.solve(config, stats) == Ok(solved.value))
      && late <= |labels| && readoutLabels == labels[..|labels| - late]
      && (fitted ==> forall o :: o in stats ==> o.id < |readoutLabels|)
    }

    constructor (config: Config, numerics: Numerics)
      ensures Valid() && this.config == config && this.numerics == numerics
      ensures labels == [] && stats == [] && !fitted
    {
      this.config, this.numerics := config, numerics;
      labels, labelIds, stats, solved, readoutLabels, fitted := [], map[], [], None, [], false;
      late := 0;
    }

    /** Ids are never reused; what was fitted stays fitted. */
    method Register(name: string) returns (r: Result<nat>)
      requires Valid()
      modifies this
      ensures Valid() && stats == old(stats) && solved == old(solved) && fitted == old(fitted)
      ensures readoutLabels == old(readoutLabels) && late == old(late) + if r.Ok? then 1 else 0
      ensures r == if name in old(labels) then Err("duplicate class") else Ok(old(|labels|))
      ensures labels == if r.Ok? then old(labels) + [name] else old(labels)
    {
      if name in labelIds {
        assert labels[labelIds[name]] == name;
        return Err("duplicate class");
      }
      var id := |labels|;
      labels := labels + [name];
      labelIds := labelIds[name := id];
      late := late + 1;
      return Ok(id);
    }

    method Observe(name: string, x: Vec) returns (r: Result<()>)
      requires Valid()
      modifies this
      ensures Valid() && labels == old(labels) && labelIds == old(labelIds) && solved == old(solved)
      ensures readoutLabels == old(readoutLabels) && late == old(late)
      ensures r.Ok? <==> name in labels && |x| == config.embeddingDim
      ensures r.Ok? ==> !fitted && name in labelIds && stats == old(stats) + [Observation(labelIds[name], x)]
      ensures r.Err? ==> stats == old(stats) && fitted == old(fitted)
    {
      if name !in labelIds { return Err("unknown class"); }
      assert labels[labelIds[name]] == name;
      if |x| != config.embeddingDim { return Err("embedding dimension mismatch"); }
      stats := stats + [Observation(labelIds[name], x)];
      fitted := false;
      return Ok(());
    }

    /** A failed solve leaves the engine as it was. */
    method Solve() returns (r: Result<()>)
      requires Valid()
      modifies this
      ensures Valid() && labels == old(labels) && labelIds == old(labelIds) && stats == old(stats)
      ensures r.Ok? <==> numerics.solve(config, stats).Ok?
      ensures r.Ok? ==> fitted && readoutLabels == labels && late == 0
      ensures r.Err? ==> fitted == old(fitted) && solved == old(solved)
      ensures r.Err? ==> readoutLabels == old(readoutLabels) && late == old(late)
      ensures old(fitted) ==> r.Ok? && solved == old(solved)
    {
      var s := numerics.solve(config, stats);
      if s.Err? { return Err(s.message); }
      solved, readoutLabels, fitted := Some(s.value), labels, true;
      late := 0;
      return Ok(());
    }

    method Project(x: Vec) returns (r: Result<Vec>)
      requires Valid()
      ensures !fitted ==> r.Err?
      ensures fitted ==> (r.Ok? <==> |x| == config.embeddingDim && Fits(numerics, config, solved.value, x))
      ensures r.Ok? ==> fitted && r.value == numerics.feature(config, solved.value, x)
    {
      if !fitted { return Err("not fitted"); }
      if |x| != config.embeddingDim { return Err("embedding dimension mismatch"); }
      var f := numerics.feature(config, solved.value, x);
      if |f| != config.projectedDim { return Err("staging violation"); }
      return Ok(f);
    }

    method Similarities(x: Vec) returns (r: Result<Vec>)
      requires Valid() && |x| == config.embeddingDim
      ensures r.Ok? <==> fitted
      ensures r.Ok? ==> r.value == numerics.score(config, solved.value, x)
    {
      if !fitted { return Err("not fitted"); }
      return Ok(numerics.score(config, solved.value, x));
    }
  }

  predicate Fits(n: Numerics, cp: Config, f: Fit, x: Vec) { |n.feature(cp, f, x)| == cp.projectedDim }

  // ----- what the sequence should be: a rebuild from the retained stream -----

  /** The stream as stage 2 sees it through the map of stage 1. */
  function Handed(n: Numerics, cp: Config, f: Fit, raw: seq<Observation>): Result<seq<Observation>> {
    if raw == [] then Ok([]) else
      var rest, o := Handed(n, cp, f, raw[..|raw| - 1]), raw[|raw| - 1];
      if rest.Err? then rest
      else if !Fits(n, cp, f, o.x) then Err("staging violation")
      else Ok(rest.value + [Observation(o.id, n.feature(cp, f, o.x))])
  }

  datatype Rebuilt = Rebuilt(first: Fit, handed: seq<Observation>, second: Fit)

  function Rebuild(n: Numerics, cp: Config, nc: Config, raw: seq<Observation>): Result<Rebuilt> {
    var first := n.solve(cp, raw);
    if first.Err? then Err(first.message) else
      var handed := Handed(n, cp, first.value, raw);
      if handed.Err? then Err(handed.message) else
        var second := n.solve(nc, handed.value);
        if second.Err? then Err(second.message) else Ok(Rebuilt(first.value, handed.value, second.value))
  }

  /** The answer of a rebuilt sequence. */
  function Answer(n: Numerics, cp: Config, nc: Config, built: Rebuilt, x: Vec): Result<Vec> {
    if |x| != cp.embeddingDim then Err("embedding dimension mismatch")
    else if !Fits(n, cp, built.first, x) then Err("staging violation")
    else Ok(n.score(nc, built.second, n.feature(cp, built.first, x)))
  }

  /** A prefix that cannot be handed over stops the whole stream. */
  lemma {:induction false} HandedPrefix(n: Numerics, cp: Config, f: Fit, raw: seq<Observation>, k: nat)
    requires k <= |raw|
    ensures Handed(n, cp, f, raw[..k]).Err? ==> Handed(n, cp, f, raw).Err?
    decreases |raw|
  {
    if k == |raw| {
      assert raw[..k] == raw;
    } else {
      var front := raw[..|raw| - 1];
      HandedPrefix(n, cp, f, front, k);
      assert front[..k] == raw[..k];
    }
  }

  lemma HandedStep(n: Numerics, cp: Config, f: Fit, raw: seq<Observation>, k: nat)
    requires k < |raw| && Handed(n, cp, f, raw[..k]).Ok?
    ensures Handed(n, cp, f, raw[..k + 1]) ==
            if Fits(n, cp, f, raw[k].x)
            then Ok(Handed(n, cp, f, raw[..k]).value + [Observation(raw[k].id, n.feature(cp, f, raw[k].x))])
            else Err("staging violation")
  {
    assert raw[..k + 1][..k] == raw[..k];
  }

  // ----- the staged engine -----

  lemma StatsOfFit(core: DecideCore)
    requires core.Valid()
    ensures core.fitted ==> core.solved.Some? && core.numerics.solve(core.config, core.stats) == Ok(core.solved.value)
  {
  }

  /** Register the labels of `from` in a fresh engine, in id order. */
  method Enrol(core: DecideCore, from: DecideCore)
    requires core != from && core.Valid() && from.Valid() && core.labels == [] && core.stats == []
    modifies core
    ensures core.Valid() && core.labels == from.labels && core.stats == []
  {
    for i := 0 to |from.labels|
      invariant core.Valid() && core.labels == from.labels[..i] && core.stats == []
    {
      assert from.labels[i] !in from.labels[..i] by {
        assert forall j :: 0 <= j < i ==> from.labelIds[from.labels[j]] == j;
      }
      var id := core.Register(from.labels[i]);
      assert from.labels[..i + 1] == from.labels[..i] + [from.labels[i]];
    }
    assert from.labels[..|from.labels|] == from.labels;
  }

  /** Express every retained sample of `from` through its current map in `core`. */
  method HandOver(from: DecideCore, core: DecideCore) returns (r: Result<()>)
    requires core != from && core.Valid() && from.Valid() && from.fitted
    requires core.labels == from.labels && core.stats == [] && core.config.embeddingDim == from.config.projectedDim
    modifies core
    ensures core.Valid() && core.labels == from.labels
    ensures var due := Handed(from.numerics, from.config, from.solved.value, from.stats);
            (r.Ok? <==> due.Ok?) && (r.Ok? ==> due == Ok(core.stats))
  {
    var raw := from.stats;
    ghost var n, cp, f := from.numerics, from.config, from.solved.value;
    assert raw[..0] == [] && raw[..|raw|] == raw;
    for i := 0 to |raw|
      invariant core.Valid() && core.labels == from.labels
      invariant Handed(n, cp, f, raw[..i]) == Ok(core.stats)
    {
      HandedStep(n, cp, f, raw, i);
      HandedPrefix(n, cp, f, raw, i + 1);
      assert raw[i] in from.stats;
      var x := from.Project(raw[i].x);
      if x.Err? { return Err(x.message); }
      var done := core.Observe(from.labels[raw[i].id], x.value);
    }
    return Ok(());
  }

  class SequentialCore {
    const cp: Config
    const nc: Config
    const numerics: Numerics
    const stage1: DecideCore
    var stage2: DecideCore
    var labels: seq<string>
    var raw: seq<Observation>
    var fitted: bool

    /** Whenever the sequence is fitted, stage 2 holds the statistics and the map of a
        rebuild from the whole retained stream under the current map of stage 1. */
    ghost predicate Valid()
      reads this, stage1, stage2
    {
      && stage1 != stage2 && stage1.Valid() && stage2.Valid()
      && stage1.config == cp && stage2.config == nc && stage1.numerics == stage2.numerics == numerics
      && nc.embeddingDim == cp.projectedDim
      && stage1.labels == labels && stage2.labels == labels && stage1.stats == raw
      && (fitted ==>
            && stage1.fitted && stage2.fitted && stage1.late == stage2.late
            && Rebuild(numerics, cp, nc, raw) == Ok(Rebuilt(stage1.solved.value, stage2.stats, stage2.solved.value)))
    }

    constructor (cp: Config, nc: Config, numerics: Numerics)
      requires nc.embeddingDim == cp.projectedDim
      ensures Valid() && fresh(stage1) && fresh(stage2) && labels == [] && raw == [] && !fitted
      ensures this.cp == cp && this.nc == nc && this.numerics == numerics
    {
      this.cp, this.nc, this.numerics := cp, nc, numerics;
      var first := new DecideCore(cp, numerics);
      var second := new DecideCore(nc, numerics);
      stage1, stage2, labels, raw, fitted := first, second, [], [], false;
    }

    method Register(name: string) returns (r: Result<nat>)
      requires Valid()
      modifies this, stage1, stage2
      ensures Valid() && stage2 == old(stage2) && raw == old(raw) && fitted == old(fitted)
      ensures stage1.readoutLabels == old(stage1.readoutLabels) && stage2.readoutLabels == old(stage2.readoutLabels)
      ensures r.Ok? ==> stage1.late == old(stage1.late) + 1 && stage2.late == old(stage2.late) + 1
      ensures r == if name in old(labels) then Err("duplicate class") else Ok(old(|labels|))
      ensures labels == if r.Ok? then old(labels) + [name] else old(labels)
    {
      var id := stage1.Register(name);
      if id.Err? { return id; }
      var second := stage2.Register(name);
      labels := labels + [name];
      return id;
    }

    /** Recording a sample withdraws the fit; a refused sample changes nothing. */
    method Observe(name: string, x: Vec) returns (r: Result<()>)
      requires Valid()
      modifies this, stage1
      ensures Valid() && stage2 == old(stage2) && labels == old(labels)
      ensures r.Ok? <==> name in labels && |x| == cp.embeddingDim
      ensures r.Ok? ==> !fitted && exists id ::
          0 <= id < |labels| && labels[id] == name && raw == old(raw) + [Observation(id, x)]
      ensures r.Err? ==> raw == old(raw) && fitted == old(fitted)
    {
      if name !in stage1.labelIds { return Err("unknown class"); }
      var id := stage1.labelIds[name];
      assert labels[id] == name;
      var done := stage1.Observe(name, x);
      if done.Err? { return done; }
      raw := raw + [Observation(id, x)];
      fitted := false;
      return Ok(());
    }

    /** Succeeds exactly when a rebuild does; a failure leaves the sequence unfitted,
        and a fitted sequence cannot fail. */
    method Fit() returns (r: Result<()>)
      requires Valid()
      modifies this, stage1
      ensures Valid() && labels == old(labels) && raw == old(raw)
      ensures stage2 == old(stage2) || fresh(stage2)
      ensures r.Ok? <==> Rebuild(numerics, cp, nc, raw).Ok?
      ensures fitted <==> r.Ok?
      ensures r.Ok? ==> stage1.readoutLabels == labels && stage2.readoutLabels == labels
      ensures r.Ok? ==> stage1.late == 0 && stage2.late == 0
      ensures old(fitted) ==> r.Ok? && stage1.solved == old(stage1.solved) && stage2.solved == old(stage2.solved)
    {
      hide DecideCore.Valid, Handed;
      StatsOfFit(stage2);
      var first := stage1.Solve();
      if first.Err? { return first; }
      var second := new DecideCore(nc, numerics);
      Enrol(second, stage1);
      var handed := HandOver(stage1, second);
      if handed.Err? { return handed; }
      var last := second.Solve();
      StatsOfFit(stage1);
      StatsOfFit(second);
      if last.Err? { return last; }
      stage2 := second;
      fitted := true;
      return Ok(());
    }

    /** Every answer is the answer of a rebuild from the whole retained stream. */
    method Similarities(x: Vec) returns (r: Result<Vec>)
      requires Valid()
      ensures !fitted ==> r.Err?
      ensures fitted ==> Rebuild(numerics, cp, nc, raw).Ok?
      ensures fitted ==>
                var due := Answer(numerics, cp, nc, Rebuild(numerics, cp, nc, raw).value, x);
                (r.Ok? <==> due.Ok?) && (r.Ok? ==> r == due)
    {
      if !fitted { return Err("not fitted"); }
      var f := stage1.Project(x);
      if f.Err? { return f; }
      r := stage2.Similarities(f.value);
    }
  }

  /** Adaptation first, collapse readout second, and matching widths. */
  predicate Staged(cp: Config, nc: Config) {
    cp.mode == Anacp && nc.mode == Ananc && nc.embeddingDim == cp.projectedDim
  }

  method NewSequence(cp: Config, nc: Config, numerics: Numerics) returns (r: Result<SequentialCore>)
    ensures r.Ok? <==> Staged(cp, nc) && Configured(cp) && Configured(nc)
    ensures r.Ok? ==> r.value.Valid() && fresh(r.value) && r.value.raw == [] && !r.value.fitted
    ensures r.Ok? ==> r.value.cp == cp && r.value.nc == nc && r.value.numerics == numerics
  {
    if !Staged(cp, nc) { return Err("staging violation"); }
    if !Configured(cp) || !Configured(nc) { return Err("invalid configuration"); }
    var s := new SequentialCore(cp, nc, numerics);
    return Ok(s);
  }

  /** Two fitted sequences that retain the same stream hold the same stages, whatever
      fits, failed fits and refused calls each has behind it. */
  lemma HistoryLeavesNoTrace(a: SequentialCore, b: SequentialCore)
    requires a.Valid() && b.Valid() && a.fitted && b.fitted
    requires a.cp == b.cp && a.nc == b.nc && a.numerics == b.numerics && a.raw == b.raw
    ensures a.stage1.solved == b.stage1.solved && a.stage2.solved == b.stage2.solved
    ensures a.stage1.stats == b.stage1.stats && a.stage2.stats == b.stage2.stats
  {
  }

  /** The handover keeps the class of every sample. */
  lemma {:induction false} HandedKeepsIds(n: Numerics, cp: Config, f: Fit, raw: seq<Observation>)
    ensures Handed(n, cp, f, raw).Ok? ==>
      && |Handed(n, cp, f, raw).value| == |raw|
      && forall i :: 0 <= i < |raw| ==> Handed(n, cp, f, raw).value[i].id == raw[i].id
  {
    if raw != [] { HandedKeepsIds(n, cp, f, raw[..|raw| - 1]); }
  }

  /** The stored labels of a fitted engine are those of a rebuild exactly when nothing was
      registered since the solve; a late label names no class with samples. */
  lemma ReadoutLabelsAreCurrentIff(core: DecideCore)
    requires core.Valid() && core.fitted
    ensures core.readoutLabels == core.labels <==> core.late == 0
    ensures forall o :: o in core.stats ==> o.id < |core.readoutLabels| && core.readoutLabels[o.id] == core.labels[o.id]
  {
  }

  /** What two fitted sequences with the same labels and stream remember of their history is how
      many labels came late: both stages of both name every class with samples alike, and their
      lists are equal exactly when equally many labels came late. */
  lemma ReadoutLabelsAgreeIff(a: SequentialCore, b: SequentialCore)
    requires a.Valid() && b.Valid() && a.fitted && b.fitted && a.labels == b.labels && a.raw == b.raw
    ensures forall o :: o in a.raw ==>
              && NamesClass(a.stage1, o.id, a.labels) && NamesClass(a.stage2, o.id, a.labels)
              && NamesClass(b.stage1, o.id, a.labels) && NamesClass(b.stage2, o.id, a.labels)
    ensures a.stage1.readoutLabels == b.stage1.readoutLabels <==> a.stage1.late == b.stage1.late
    ensures a.stage2.readoutLabels == b.stage2.readoutLabels <==> a.stage1.late == b.stage1.late
    ensures a.stage1.readoutLabels == a.stage2.readoutLabels
  {
    SamplesAreNamed(a);
    SamplesAreNamed(b);
    PrefixesDiffer(a.labels, a.stage1.late, b.stage1.late);
  }

  predicate NamesClass(core: DecideCore, id: nat, labels: seq<string>)
    reads core
  {
    id < |core.readoutLabels| && id < |labels| && core.readoutLabels[id] == labels[id]
  }

  lemma SamplesAreNamed(s: SequentialCore)
    requires s.Valid() && s.fitted
    ensures forall o :: o in s.raw ==> NamesClass(s.stage1, o.id, s.labels) && NamesClass(s.stage2, o.id, s.labels)
  {
    ReadoutLabelsAreCurrentIff(s.stage1);
    ReadoutLabelsAreCurrentIff(s.stage2);
    HandedKeepsIds(s.numerics, s.cp, s.stage1.solved.value, s.raw);
    var handed := s.stage2.stats;
    forall o | o in s.raw ensures NamesClass(s.stage1, o.id, s.labels) && NamesClass(s.stage2, o.id, s.labels) {
      var i :| 0 <= i < |s.raw| && s.raw[i] == o;
      assert handed[i] in handed && handed[i].id == o.id;
    }
  }

  lemma PrefixesDiffer(labels: seq<string>, m: nat, n: nat)
    requires m <= |labels| && n <= |labels|
    ensures labels[..|labels| - m] == labels[..|labels| - n] <==> m == n
  {
    if m != n { assert |labels[..|labels| - m]| != |labels[..|labels| - n]|; }
  }
}
