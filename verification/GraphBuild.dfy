/** The merge of `Graph::build`: the `.mm1` declarations first, then the names only
    the `.mm0` has, and the references of each merged declaration.

    A parsed declaration carries the identifier tokens of its statement and of its
    proof tail; splitting text into tokens is not part of this model. */
module GraphBuild {
  import opened Wrappers
  import opened DependencyGraph

  datatype Parsed = Parsed(name: string, statementIds: seq<string>, proofIds: seq<string>, locals: set<string>,
      line: nat)

  const KEYWORDS: set<string> := {
    "sort", "provable", "strict", "term", "axiom", "def", "theorem", "macro", "pub", "import",
    "delimiter", "prefix", "infixl", "infixr", "statement", "notation", "coercion", "local",
    "hypothesis" }

  /** A declaration while the two files are merged. */
  datatype Entry = Entry(name: string, ids: seq<string>, locals: set<string>, specLine: Option<nat>,
      proofLine: Option<nat>)

  function TokensOf(p: Parsed): seq<string> { p.statementIds + p.proofIds }

  // ----- what the merge should give -----

  /** The last item that declares `name`. */
  function LastItem(items: seq<Parsed>, name: string): Option<Parsed> {
    if items == [] then None
    else if items[|items| - 1].name == name then Some(items[|items| - 1])
    else LastItem(items[..|items| - 1], name)
  }

  function FirstItem(items: seq<Parsed>, name: string): Option<Parsed> {
    if items == [] then None
    else
      var first := FirstItem(items[..|items| - 1], name);
      if first.None? && items[|items| - 1].name == name then Some(items[|items| - 1]) else first
  }

  function LastLine(items: seq<Parsed>, name: string): Option<nat> {
    var last := LastItem(items, name);
    if last.Some? then Some(last.value.line) else None
  }

  /** Everything the items of that name bind. */
  function LocalsOf(items: seq<Parsed>, name: string): set<string> {
    if items == [] then {}
    else LocalsOf(items[..|items| - 1], name) + (if items[|items| - 1].name == name then items[|items| - 1].locals
        else {})
  }

  /** The tokens that count: of the last proof item, or of the first spec item when there is none. */
  function IdsOf(proof: seq<Parsed>, spec: seq<Parsed>, name: string): seq<string> {
    var inProof, inSpec := LastItem(proof, name), FirstItem(spec, name);
    if inProof.Some? then TokensOf(inProof.value) else if inSpec.Some? then TokensOf(inSpec.value) else []
  }

  predicate Declared(proof: seq<Parsed>, spec: seq<Parsed>, name: string) {
    LastItem(proof, name).Some? || LastItem(spec, name).Some?
  }

  ghost predicate BoundIn(items: seq<Parsed>, id: string) {
    exists k :: 0 <= k < |items| && id in items[k].locals
  }

  /** The declaration `name` of the submission mentions `id`, and does not bind it. */
  predicate Uses(proof: seq<Parsed>, spec: seq<Parsed>, name: string, id: string) {
    id in IdsOf(proof, spec, name) && id != name && id !in LocalsOf(proof, name) && id !in LocalsOf(spec, name)
  }

  /** It mentions a name that nothing in the submission accounts for. */
  ghost predicate Unaccounted(proof: seq<Parsed>, spec: seq<Parsed>, symbols: set<string>, name: string, id: string) {
    Uses(proof, spec, name, id) && !Declared(proof, spec, id) && id !in KEYWORDS && id !in symbols
    && !BoundIn(proof, id) && !BoundIn(spec, id)
  }

  /** `b` stands on a later line than `a` of one file: the proof file, or the spec when the proof has neither. */
  predicate DeclaredLater(proof: seq<Parsed>, spec: seq<Parsed>, a: string, b: string) {
    || (LastLine(proof, a).Some? && LastLine(proof, b).Some? && LastLine(proof, a).value < LastLine(proof, b).value)
    || (LastLine(proof, a).None? && LastLine(proof, b).None? && LastLine(spec, a).Some? && LastLine(spec, b).Some? &&
        LastLine(spec, a).value < LastLine(spec, b).value)
  }

  /** One declaration of the submission uses another that is declared later. */
  predicate LateUse(proof: seq<Parsed>, spec: seq<Parsed>, name: string, id: string) {
    Declared(proof, spec, name) && Declared(proof, spec, id) && Uses(proof, spec, name, id) &&
    DeclaredLater(proof, spec, name, id)
  }

  /** Every use of one declaration by another points to an earlier line of one file. */
  ghost predicate UsesPointBack(proof: seq<Parsed>, spec: seq<Parsed>) {
    forall name, id ::
      Declared(proof, spec, name) && Declared(proof, spec, id) && Uses(proof, spec, name, id) ==>
        DeclaredLater(proof, spec, id, name)
  }

  ghost predicate TableOk(entries: seq<Entry>, index: Index) {
    && (forall name :: name in index ==> index[name] < |entries| && entries[index[name]].name == name)
    && (forall i :: 0 <= i < |entries| ==> entries[i].name in index && index[entries[i].name] == i)
  }

  /** The entries are exactly the names of the two files, each with its lines, tokens and locals. */
  ghost predicate Merged(entries: seq<Entry>, index: Index, proof: seq<Parsed>, spec: seq<Parsed>) {
    && TableOk(entries, index)
    && (forall i :: 0 <= i < |entries| ==> EntryOk(entries[i], proof, spec))
    && (forall name :: name !in index ==> !Declared(proof, spec, name))
  }

  ghost predicate EntryOk(e: Entry, proof: seq<Parsed>, spec: seq<Parsed>) {
    && e.proofLine == LastLine(proof, e.name) && e.specLine == LastLine(spec, e.name)
    && e.ids == IdsOf(proof, spec, e.name) && e.locals == LocalsOf(proof, e.name) + LocalsOf(spec, e.name)
    && Declared(proof, spec, e.name)
  }

  lemma ItemsPush(items: seq<Parsed>, p: Parsed, name: string)
    ensures LastItem(items + [p], name) == if p.name == name then Some(p) else LastItem(items, name)
    ensures FirstItem(items + [p], name) ==
      if p.name == name && FirstItem(items, name).None? then Some(p) else FirstItem(items, name)
    ensures LocalsOf(items + [p], name) == LocalsOf(items, name) + (if p.name == name then p.locals else {})
  {
    assert (items + [p])[..|items|] == items;
  }

  lemma {:induction false} FirstOrLast(items: seq<Parsed>, name: string)
    ensures FirstItem(items, name).Some? <==> LastItem(items, name).Some?
    ensures LastItem(items, name).None? ==> LocalsOf(items, name) == {}
  {
    if items != [] { FirstOrLast(items[..|items| - 1], name); }
  }

  lemma {:induction false} LocalsAreBound(items: seq<Parsed>, id: string)
    ensures forall name :: id in LocalsOf(items, name) ==> BoundIn(items, id)
    ensures BoundIn(items, id) ==> exists name :: LastItem(items, name).Some? && id in LocalsOf(items, name)
  {
    if items != [] {
      var front, p := items[..|items| - 1], items[|items| - 1];
      LocalsAreBound(front, id);
      forall name | id in LocalsOf(items, name) ensures BoundIn(items, id) {
        if id in LocalsOf(front, name) {
          var k :| 0 <= k < |front| && id in front[k].locals;
          assert id in items[k].locals;
        }
      }
      if BoundIn(items, id) {
        if id in p.locals {
          assert LastItem(items, p.name).Some? && id in LocalsOf(items, p.name);
        } else {
          var k :| 0 <= k < |items| && id in items[k].locals;
          assert front[k] == items[k];
          var name :| LastItem(front, name).Some? && id in LocalsOf(front, name);
          assert LastItem(items, name).Some? && id in LocalsOf(items, name);
        }
      }
    }
  }

  /** What one more proof item makes of an entry. */
  function WithProof(e: Entry, p: Parsed): Entry {
    e.(proofLine := Some(p.line), ids := TokensOf(p), locals := e.locals + p.locals)
  }

  /** What one more spec item makes of an entry that is there already. */
  function WithSpec(e: Entry, p: Parsed): Entry { e.(specLine := Some(p.line), locals := e.locals + p.locals) }

  lemma ProofItemEntry(e: Entry, proof: seq<Parsed>, spec: seq<Parsed>, p: Parsed)
    requires spec == []
    ensures EntryOk(e, proof, spec) ==> EntryOk(if e.name == p.name then WithProof(e, p) else e, proof + [p], spec)
    ensures !Declared(proof, spec, p.name) ==>
        EntryOk(Entry(p.name, TokensOf(p), p.locals, None, Some(p.line)), proof + [p], spec)
    ensures forall name :: Declared(proof + [p], spec, name) <==> Declared(proof, spec, name) || name == p.name
  {
    forall name { ItemsPush(proof, p, name); }
    FirstOrLast(proof, p.name);
  }

  lemma SpecItemEntry(e: Entry, proof: seq<Parsed>, spec: seq<Parsed>, p: Parsed)
    ensures EntryOk(e, proof, spec) ==> EntryOk(if e.name == p.name then WithSpec(e, p) else e, proof, spec + [p])
    ensures !Declared(proof, spec, p.name) ==>
        EntryOk(Entry(p.name, TokensOf(p), p.locals, Some(p.line), None), proof, spec + [p])
    ensures forall name :: Declared(proof, spec + [p], name) <==> Declared(proof, spec, name) || name == p.name
  {
    forall name { ItemsPush(spec, p, name); }
    FirstOrLast(spec, p.name);
    FirstOrLast(spec, e.name);
    FirstOrLast(proof, p.name);
    hide LastItem, FirstItem, LocalsOf, TokensOf;
  }

  /** Updating the entry of a name, or adding it, keeps the table. */
  lemma TableStep(entries: seq<Entry>, index: Index, e: Entry)
    requires TableOk(entries, index)
    ensures if e.name in index then TableOk(entries[index[e.name] := e], index)
            else TableOk(entries + [e], index[e.name := |entries|])
  {
  }

  lemma MergeStep(entries: seq<Entry>, index: Index, proof: seq<Parsed>, spec: seq<Parsed>,
                  proof': seq<Parsed>, spec': seq<Parsed>, e: Entry)
    requires Merged(entries, index, proof, spec) && EntryOk(e, proof', spec')
    requires forall i :: 0 <= i < |entries| && entries[i].name != e.name ==> EntryOk(entries[i], proof', spec')
    requires forall name :: Declared(proof', spec', name) <==> Declared(proof, spec, name) || name == e.name
    ensures if e.name in index then index[e.name] < |entries| &&
        Merged(entries[index[e.name] := e], index, proof', spec')
            else Merged(entries + [e], index[e.name := |entries|], proof', spec')
  {
    TableStep(entries, index, e);
    hide EntryOk, Declared;
    if e.name in index {
      var at := index[e.name];
      var now := entries[at := e];
      forall i | 0 <= i < |now| ensures EntryOk(now[i], proof', spec') {
        if i != at { assert entries[i].name != e.name; }
      }
    } else {
      var now := entries + [e];
      forall i | 0 <= i < |now| ensures EntryOk(now[i], proof', spec') {
        if i < |entries| { assert entries[i].name != e.name; }
      }
    }
  }

  /** The entry of a proof item: the old one updated, or a new one. */
  function ProofEntry(entries: seq<Entry>, index: Index, p: Parsed): Entry {
    if p.name in index && index[p.name] < |entries| then WithProof(entries[index[p.name]], p)
    else Entry(p.name, TokensOf(p), p.locals, None, Some(p.line))
  }

  function SpecEntry(entries: seq<Entry>, index: Index, p: Parsed): Entry {
    if p.name in index && index[p.name] < |entries| then WithSpec(entries[index[p.name]], p)
    else Entry(p.name, TokensOf(p), p.locals, Some(p.line), None)
  }

  lemma ProofStep(entries: seq<Entry>, index: Index, proof: seq<Parsed>, p: Parsed)
    requires Merged(entries, index, proof, [])
    ensures p.name in index ==> index[p.name] < |entries|
    ensures ProofEntry(entries, index, p).name == p.name && EntryOk(ProofEntry(entries, index, p), proof + [p], [])
    ensures forall i :: 0 <= i < |entries| && entries[i].name != p.name ==> EntryOk(entries[i], proof + [p], [])
    ensures forall name :: Declared(proof + [p], [], name) <==> Declared(proof, [], name) || name == p.name
  {
    ProofItemEntry(ProofEntry(entries, index, p), proof, [], p);
    forall i | 0 <= i < |entries|
      ensures EntryOk(if entries[i].name == p.name then WithProof(entries[i], p) else entries[i], proof + [p], [])
    {
      ProofItemEntry(entries[i], proof, [], p);
    }
    hide EntryOk, Declared;
  }

  lemma SpecStep(entries: seq<Entry>, index: Index, proof: seq<Parsed>, spec: seq<Parsed>, p: Parsed)
    requires Merged(entries, index, proof, spec)
    ensures p.name in index ==> index[p.name] < |entries|
    ensures SpecEntry(entries, index, p).name == p.name && EntryOk(SpecEntry(entries, index, p), proof, spec + [p])
    ensures forall i :: 0 <= i < |entries| && entries[i].name != p.name ==> EntryOk(entries[i], proof, spec + [p])
    ensures forall name :: Declared(proof, spec + [p], name) <==> Declared(proof, spec, name) || name == p.name
  {
    SpecItemEntry(SpecEntry(entries, index, p), proof, spec, p);
    forall i | 0 <= i < |entries|
      ensures EntryOk(if entries[i].name == p.name then WithSpec(entries[i], p) else entries[i], proof, spec + [p])
    {
      SpecItemEntry(entries[i], proof, spec, p);
    }
    hide EntryOk, Declared;
  }

  /** One entry set in place, or appended under a new name. */
  method Place(entries: seq<Entry>, index: Index, e: Entry) returns (placed: seq<Entry>, table: Index)
    requires e.name in index ==> index[e.name] < |entries|
    ensures if e.name in index then placed == entries[index[e.name] := e] && table == index
            else placed == entries + [e] && table == index[e.name := |entries|]
  {
    placed, table := entries, index;
    if e.name in index {
      placed := entries[index[e.name] := e];
    } else {
      table := index[e.name := |entries|];
      placed := entries + [e];
    }
  }

  /** The two loops over the parsed files. */
  method Merge(proof: seq<Parsed>, spec: seq<Parsed>) returns (entries: seq<Entry>, index: Index)
    ensures Merged(entries, index, proof, spec)
  {
    entries, index := [], map[];
    for m := 0 to |proof|
      invariant Merged(entries, index, proof[..m], [])
    {
      hide *;
      var p := proof[m];
      ProofStep(entries, index, proof[..m], p);
      MergeStep(entries, index, proof[..m], [], proof[..m] + [p], [], ProofEntry(entries, index, p));
      assert proof[..m + 1] == proof[..m] + [p];
      entries, index := Place(entries, index, ProofEntry(entries, index, p));
    }
    assert proof[..|proof|] == proof;
    for m := 0 to |spec|
      invariant Merged(entries, index, proof, spec[..m])
    {
      hide *;
      var p := spec[m];
      SpecStep(entries, index, proof, spec[..m], p);
      MergeStep(entries, index, proof, spec[..m], proof, spec[..m] + [p], SpecEntry(entries, index, p));
      assert spec[..m + 1] == spec[..m] + [p];
      entries, index := Place(entries, index, SpecEntry(entries, index, p));
    }
    assert spec[..|spec|] == spec;
  }

  lemma MergedTable(entries: seq<Entry>, index: Index, proof: seq<Parsed>, spec: seq<Parsed>)
    requires Merged(entries, index, proof, spec)
    ensures TableOk(entries, index)
    ensures forall i :: 0 <= i < |entries| ==> EntryOk(entries[i], proof, spec)
    ensures forall name :: name in index <==> Declared(proof, spec, name)
  {
    forall name | name in index ensures Declared(proof, spec, name) {
      assert EntryOk(entries[index[name]], proof, spec);
    }
  }

  // ----- references -----

  ghost predicate Distinct<T(!new)>(s: seq<T>) {
    forall i, j :: 0 <= i < j < |s| ==> s[i] != s[j]
  }

  /** The declared names a declaration uses, and the names nobody accounts for:
      each once, in order of appearance. */
  method References(e: Entry, names: set<string>, variables: set<string>, symbols: set<string>)
    returns (deps: seq<string>, unknown: seq<string>)
    ensures Distinct(deps) && Distinct(unknown)
    ensures forall id :: id in deps <==> id in e.ids && id != e.name && id !in e.locals && id in names
    ensures forall id :: id in unknown <==>
      id in e.ids && id != e.name && id !in e.locals && id !in names && id !in KEYWORDS && id !in variables &&
          id !in symbols
  {
    deps, unknown := [], [];
    for m := 0 to |e.ids|
      invariant Distinct(deps) && Distinct(unknown)
      invariant forall id :: id in deps <==> id in e.ids[..m] && id != e.name && id !in e.locals && id in names
      invariant forall id :: id in unknown <==>
        id in e.ids[..m] && id != e.name && id !in e.locals && id !in names && id !in KEYWORDS && id !in variables &&
            id !in symbols
    {
      var id := e.ids[m];
      assert e.ids[..m + 1] == e.ids[..m] + [id];
      if id == e.name || id in e.locals { continue; }
      if id in names {
        if id !in deps { deps := deps + [id]; }
      } else if id !in KEYWORDS && id !in variables && id !in symbols && id !in unknown {
        unknown := unknown + [id];
      }
    }
    assert e.ids[..|e.ids|] == e.ids;
  }

  /** What the entries bind between them is what the items bind. */
  lemma BoundByEntries(entries: seq<Entry>, index: Index, proof: seq<Parsed>, spec: seq<Parsed>, id: string)
    requires Merged(entries, index, proof, spec)
    ensures (exists i :: 0 <= i < |entries| && id in entries[i].locals) <==> BoundIn(proof, id) || BoundIn(spec, id)
  {
    LocalsAreBound(proof, id);
    LocalsAreBound(spec, id);
    MergedTable(entries, index, proof, spec);
    hide BoundIn, LastItem, FirstItem, LocalsOf;
    if i :| 0 <= i < |entries| && id in entries[i].locals {
      assert EntryOk(entries[i], proof, spec);
    }
    if BoundIn(proof, id) {
      var name :| LastItem(proof, name).Some? && id in LocalsOf(proof, name);
      assert name in index && EntryOk(entries[index[name]], proof, spec);
    }
    if BoundIn(spec, id) {
      var name :| LastItem(spec, name).Some? && id in LocalsOf(spec, name);
      assert name in index && EntryOk(entries[index[name]], proof, spec);
    }
  }

  method BoundNames(entries: seq<Entry>) returns (bound: set<string>)
    ensures forall id :: id in bound <==> exists i :: 0 <= i < |entries| && id in entries[i].locals
  {
    bound := {};
    for m := 0 to |entries|
      invariant forall id :: id in bound <==> exists i :: 0 <= i < m && id in entries[i].locals
    {
      bound := bound + entries[m].locals;
    }
  }

  /** The declaration carries its lines, and exactly the references of its item. */
  ghost predicate DeclOk(d: Decl, unknown: seq<string>, proof: seq<Parsed>, spec: seq<Parsed>, symbols: set<string>) {
    && d.proofLine == LastLine(proof, d.name) && d.specLine == LastLine(spec, d.name)
    && Declared(proof, spec, d.name)
    && Distinct(d.deps) && Distinct(unknown)
    && (forall id :: id in d.deps <==> Uses(proof, spec, d.name, id) && Declared(proof, spec, id))
    && (forall id :: id in unknown <==> Unaccounted(proof, spec, symbols, d.name, id))
  }

  /** References computed from the entry are those of the submission. */
  lemma EntryReferences(e: Entry, deps: seq<string>, unknown: seq<string>, names: set<string>, bound: set<string>,
                        proof: seq<Parsed>, spec: seq<Parsed>, symbols: set<string>)
    requires EntryOk(e, proof, spec) && Distinct(deps) && Distinct(unknown)
    requires forall id :: id in deps <==> id in e.ids && id != e.name && id !in e.locals && id in names
    requires forall id :: id in unknown <==>
      id in e.ids && id != e.name && id !in e.locals && id !in names && id !in KEYWORDS && id !in bound - names &&
          id !in symbols
    requires forall id :: id in names <==> Declared(proof, spec, id)
    requires forall id :: id in bound <==> BoundIn(proof, id) || BoundIn(spec, id)
    ensures DeclOk(Decl(e.name, e.specLine, e.proofLine, deps), unknown, proof, spec, symbols)
  {
    hide Distinct, LastLine, IdsOf, LocalsOf, Declared, BoundIn;
  }

  /** The merged list with its references: what the later passes start from. */
  method Declarations(proof: seq<Parsed>, spec: seq<Parsed>, symbols: set<string>)
    returns (decls: seq<Decl>, index: Index, unknown: seq<seq<string>>)
    ensures Indexed(decls, index) && |unknown| == |decls|
    ensures forall i :: 0 <= i < |decls| ==> DeclOk(decls[i], unknown[i], proof, spec, symbols)
    ensures forall name :: name in index <==> Declared(proof, spec, name)
  {
    hide *;
    var entries: seq<Entry>;
    entries, index := Merge(proof, spec);
    MergedTable(entries, index, proof, spec);
    var names := index.Keys;
    var bound := BoundNames(entries);
    forall id ensures id in bound <==> BoundIn(proof, id) || BoundIn(spec, id) {
      BoundByEntries(entries, index, proof, spec, id);
    }
    var variables := bound - names;
    decls, unknown := [], [];
    for m := 0 to |entries|
      invariant |decls| == |unknown| == m
      invariant forall i :: 0 <= i < m ==> decls[i].name == entries[i].name
      invariant forall i :: 0 <= i < m ==> DeclOk(decls[i], unknown[i], proof, spec, symbols)
    {
      var e := entries[m];
      var deps, unres := References(e, names, variables, symbols);
      EntryReferences(e, deps, unres, names, bound, proof, spec, symbols);
      decls, unknown := decls + [Decl(e.name, e.specLine, e.proofLine, deps)], unknown + [unres];
    }
    SameTable(entries, decls, index);
  }

  lemma SameTable(entries: seq<Entry>, decls: seq<Decl>, index: Index)
    requires TableOk(entries, index) && |decls| == |entries|
    requires forall i :: 0 <= i < |decls| ==> decls[i].name == entries[i].name
    ensures Indexed(decls, index)
  {
    forall i | 0 <= i < |decls| ensures decls[i].name in index && index[decls[i].name] == i {
      assert entries[i].name in index;
    }
  }
}
