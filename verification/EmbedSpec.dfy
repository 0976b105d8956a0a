/** Embedding specs of `decide_core/src/backbone.rs`: the parser, exactly which specs
    it can return, and the identity string built from them.
    Strings are sequences of code points; `usize` is 64 bits wide. */
module EmbedSpec {
  import opened Text
  import opened Wrappers

  datatype EmbedSpec = EmbedSpec(
    backend: string,
    model: string,
    baseUrl: Option<string>,
    truncateDim: Option<nat>,
    instruction: Option<string>)

  datatype Options = Options(truncateDim: Option<nat>, instruction: Option<string>)

  const EMBED_PREFIX := "embed:"
  const OPENAI := "openai-compatible"
  const LOCAL := "local"
  const SLASHED := ["vllm", "hf-local", "hf", "kernel"]
  const TRUNCATE := "truncate="
  const INSTRUCTION := "instruction="
  const USIZE_MAX: nat := 0xFFFF_FFFF_FFFF_FFFF

  // ----- string primitives -----

  predicate Starts(s: string, p: string) { |p| <= |s| && s[..|p|] == p }

  /** The first position of `c` at or after `pos`, or the length. */
  function Find(s: string, c: char, pos: nat): (i: nat)
    requires pos <= |s|
    ensures pos <= i <= |s| && (forall k :: pos <= k < i ==> s[k] != c) && (i < |s| ==> s[i] == c)
    decreases |s| - pos
  {
    if pos == |s| || s[pos] == c then pos else Find(s, c, pos + 1)
  }

  function TrimStart(s: string): string {
    if s != "" && IsWhite(s[0]) then TrimStart(s[1..]) else s
  }

  function TrimEnd(s: string): string {
    if s != "" && IsWhite(s[|s| - 1]) then TrimEnd(s[..|s| - 1]) else s
  }

  function Trim(s: string): string { TrimEnd(TrimStart(s)) }

  predicate AllDigits(s: string) { forall i :: 0 <= i < |s| ==> IsDigit(s[i]) }

  /** `str::parse::<usize>`: an optional plus sign, then digits that do not overflow. */
  function ParseUsize(v: string): Option<nat> {
    var digits := if |v| > 1 && v[0] == '+' then v[1..] else v;
    if digits == "" || !AllDigits(digits) || Value(digits) > USIZE_MAX then None else Some(Value(digits))
  }

  // ----- the option fragment -----

  /** The options from position `pos` on, `truncateDim` being what was read before. */
  function OptionsFrom(frag: string, pos: nat, truncateDim: Option<nat>): Result<Options>
    decreases |frag| - pos
  {
    if pos >= |frag| then Ok(Options(truncateDim, None)) else
      var end := Find(frag, '&', pos);
      var token := frag[pos..end];
      if Starts(token, TRUNCATE) then
        var n := ParseUsize(token[|TRUNCATE|..]);
        if n.None? then Err("truncate must be a positive integer")
        else if n.value == 0 then Err("truncate must be a positive integer")
        else OptionsFrom(frag, end + 1, n)
      else if Starts(token, INSTRUCTION) then
        var value := frag[pos + |INSTRUCTION|..];
        if value == "" then Err("instruction has no text") else Ok(Options(truncateDim, Some(value)))
      else if token != "" then Err("unknown option")
      else OptionsFrom(frag, end + 1, truncateDim)
  }

  /** How one option is read: each lemma is one branch of the loop. */
  lemma AfterOption(frag: string, pos: nat, truncateDim: Option<nat>)
    requires pos < |frag|
    ensures var end := Find(frag, '&', pos);
            var token := frag[pos..end];
            && (Starts(token, TRUNCATE) ==>
                  |TRUNCATE| <= |token| &&
                  var n := ParseUsize(token[|TRUNCATE|..]);
                  OptionsFrom(frag, pos, truncateDim) ==
                    if n.None? || n.value == 0 then Err("truncate must be a positive integer")
                    else OptionsFrom(frag, end + 1, n))
            && (!Starts(token, TRUNCATE) && Starts(token, INSTRUCTION) ==>
                  pos + |INSTRUCTION| <= |frag| &&
                  var value := frag[pos + |INSTRUCTION|..];
                  OptionsFrom(frag, pos, truncateDim) ==
                    if value == "" then Err("instruction has no text") else Ok(Options(truncateDim, Some(value))))
            && (!Starts(token, TRUNCATE) && !Starts(token, INSTRUCTION) ==>
                  OptionsFrom(frag, pos, truncateDim) ==
                    if token != "" then Err("unknown option") else OptionsFrom(frag, end + 1, truncateDim))
  {
    hide ParseUsize, Find;
  }

  lemma NoMoreOptions(frag: string, pos: nat, truncateDim: Option<nat>)
    requires pos >= |frag|
    ensures OptionsFrom(frag, pos, truncateDim) == Ok(Options(truncateDim, None))
  {
  }

  method ParseOptions(fragment: Option<string>) returns (res: Result<Options>)
    ensures res == if fragment.None? then Ok(Options(None, None)) else OptionsFrom(fragment.value, 0, None)
  {
    hide *;
    if fragment.None? { return Ok(Options(None, None)); }
    var frag := fragment.value;
    var truncateDim: Option<nat> := None;
    var pos := 0;
    while pos < |frag|
      invariant OptionsFrom(frag, pos, truncateDim) == OptionsFrom(frag, 0, None)
    {
      AfterOption(frag, pos, truncateDim);
      var end := Find(frag, '&', pos);
      var token := frag[pos..end];
      if Starts(token, TRUNCATE) {
        var n := ParseUsize(token[|TRUNCATE|..]);
        if n.None? { return Err("truncate must be a positive integer"); }
        if n.value == 0 { return Err("truncate must be a positive integer"); }
        truncateDim := n;
      } else if Starts(token, INSTRUCTION) {
        var value := frag[pos + |INSTRUCTION|..];
        if value == "" { return Err("instruction has no text"); }
        return Ok(Options(truncateDim, Some(value)));
      } else if token != "" {
        return Err("unknown option");
      }
      pos := end + 1;
    }
    NoMoreOptions(frag, pos, truncateDim);
    return Ok(Options(truncateDim, None));
  }

  // ----- the spec -----

  /** Which backend a spec without its options names. */
  function Recognise(part: string, options: Options): EmbedSpec {
    var t, i := options.truncateDim, options.instruction;
    if Starts(part, OPENAI + ":") then EmbedSpec(OPENAI, part, Some(part[|OPENAI| + 1..]), t, i)
    else if Starts(part, "vllm/") then EmbedSpec("vllm", part[5..], None, t, i)
    else if Starts(part, "hf-local/") then EmbedSpec("hf-local", part[9..], None, t, i)
    else if Starts(part, "hf/") then EmbedSpec("hf", part[3..], None, t, i)
    else if Starts(part, "kernel/") then EmbedSpec("kernel", part[7..], None, t, i)
    else EmbedSpec(LOCAL, part, None, t, i)
  }

  function ParseEmbedSpec(raw: string): Result<EmbedSpec> {
    if !Starts(raw, EMBED_PREFIX) then Err("spec must start with the embed: prefix")
    else ParseRest(Trim(raw[|EMBED_PREFIX|..]))
  }

  function ParseRest(rest: string): Result<EmbedSpec> {
    if rest == "" then Err("no model after the prefix") else
      var hash := Find(rest, '#', 0);
      var part := rest[..hash];
      if IsBlank(part) then Err("no model before the options") else
        var options := if hash == |rest| then Ok(Options(None, None)) else OptionsFrom(rest[hash + 1..], 0, None);
        if options.Err? then Err(options.message) else Ok(Recognise(part, options.value))
  }

  /** The spec as it was written, without its options. */
  function SpecPart(spec: EmbedSpec): string {
    if spec.backend in SLASHED then spec.backend + "/" + spec.model else spec.model
  }

  predicate BackendFits(spec: EmbedSpec) {
    if spec.backend == OPENAI then
      spec.baseUrl.Some? && spec.model == OPENAI + ":" + spec.baseUrl.value
    else if spec.backend == LOCAL then
      && spec.baseUrl.None? && !Starts(spec.model, OPENAI + ":")
      && forall k :: 0 <= k < |SLASHED| ==> !Starts(spec.model, SLASHED[k] + "/")
    else
      spec.baseUrl.None? && spec.backend in SLASHED
  }

  predicate OptionsFit(options: Options) {
    && (options.truncateDim.Some? ==> 0 < options.truncateDim.value <= USIZE_MAX)
    && (options.instruction.Some? ==>
          |options.instruction.value| > 0 && !IsWhite(options.instruction.value[|options.instruction.value| - 1]))
  }

  function OptionsOf(spec: EmbedSpec): Options { Options(spec.truncateDim, spec.instruction) }

  /** The specs that can be written down. */
  predicate WellFormed(spec: EmbedSpec) {
    var part := SpecPart(spec);
    && |part| > 0 && !IsWhite(part[0]) && '#' !in part
    && BackendFits(spec) && OptionsFit(OptionsOf(spec))
  }

  // ----- every parsed spec is well formed -----

  lemma {:induction false} TrimmedStart(s: string)
    ensures TrimStart(s) == "" || !IsWhite(TrimStart(s)[0])
  {
    if s != "" && IsWhite(s[0]) { TrimmedStart(s[1..]); }
  }

  lemma {:induction false} TrimmedEnd(s: string)
    ensures TrimEnd(s) <= s
    ensures TrimEnd(s) == "" || !IsWhite(TrimEnd(s)[|TrimEnd(s)| - 1])
  {
    if s != "" && IsWhite(s[|s| - 1]) { TrimmedEnd(s[..|s| - 1]); }
  }

  lemma Trimmed(s: string)
    ensures var t := Trim(s); t == "" || (!IsWhite(t[0]) && !IsWhite(t[|t| - 1]))
  {
    TrimmedStart(s);
    TrimmedEnd(TrimStart(s));
  }

  predicate TruncateFits(t: Option<nat>) { t.Some? ==> 0 < t.value <= USIZE_MAX }

  lemma ParsedUsizeFits(v: string)
    ensures ParseUsize(v).Some? ==> ParseUsize(v).value <= USIZE_MAX
  {
  }

  /** The instruction ends where the trimmed text ends. */
  lemma LastInstruction(frag: string, pos: nat, t: Option<nat>)
    requires TruncateFits(t) && pos < |frag| && !IsWhite(frag[|frag| - 1])
    ensures OptionsFit(Options(t, Some(frag[pos..])))
  {
    hide IsWhite;
    var value := frag[pos..];
    assert value[|value| - 1] == frag[|frag| - 1];
  }

  lemma {:induction false} OptionsAreFit(frag: string, pos: nat, truncateDim: Option<nat>)
    requires frag == "" || !IsWhite(frag[|frag| - 1])
    requires TruncateFits(truncateDim)
    ensures var o := OptionsFrom(frag, pos, truncateDim); o.Ok? ==> OptionsFit(o.value)
    decreases |frag| - pos
  {
    hide IsWhite, ParseUsize;
    if pos < |frag| {
      var end := Find(frag, '&', pos);
      var token := frag[pos..end];
      if Starts(token, TRUNCATE) {
        var n := ParseUsize(token[|TRUNCATE|..]);
        ParsedUsizeFits(token[|TRUNCATE|..]);
        if n.Some? && n.value != 0 { OptionsAreFit(frag, end + 1, n); }
      } else if Starts(token, INSTRUCTION) {
        if pos + |INSTRUCTION| < |frag| { LastInstruction(frag, pos + |INSTRUCTION|, truncateDim); }
      } else if token == "" {
        OptionsAreFit(frag, end + 1, truncateDim);
      }
    }
  }

  lemma RecognisedFits(part: string, options: Options)
    ensures var spec := Recognise(part, options);
            BackendFits(spec) && SpecPart(spec) == part && OptionsOf(spec) == options
  {
    var spec := Recognise(part, options);
    assert |SLASHED| == 4;
    assert SLASHED[0] + "/" == "vllm/" && SLASHED[1] + "/" == "hf-local/";
    assert SLASHED[2] + "/" == "hf/" && SLASHED[3] + "/" == "kernel/";
    if Starts(part, OPENAI + ":") {
      assert part == (OPENAI + ":") + part[|OPENAI| + 1..];
    } else if spec.backend != LOCAL {
      assert spec.backend in SLASHED;
      assert part == (spec.backend + "/") + part[|spec.backend| + 1..];
    }
  }

  lemma RestIsWellFormed(rest: string)
    requires rest != "" ==> !IsWhite(rest[0]) && !IsWhite(rest[|rest| - 1])
    ensures ParseRest(rest).Ok? ==> WellFormed(ParseRest(rest).value)
  {
    hide IsWhite, Recognise, BackendFits, OptionsFit, SpecPart, OptionsFrom;
    if ParseRest(rest).Ok? {
      var hash := Find(rest, '#', 0);
      var part := rest[..hash];
      assert part != "" && part[0] == rest[0];
      if hash < |rest| {
        var frag := rest[hash + 1..];
        assert frag == "" || frag[|frag| - 1] == rest[|rest| - 1];
        OptionsAreFit(frag, 0, None);
        RecognisedFits(part, OptionsFrom(frag, 0, None).value);
      } else {
        NoOptionsFit();
        RecognisedFits(part, Options(None, None));
      }
    }
  }

  lemma NoOptionsFit()
    ensures OptionsFit(Options(None, None))
  {
  }

  lemma ParsedIsWellFormed(raw: string)
    ensures ParseEmbedSpec(raw).Ok? ==> WellFormed(ParseEmbedSpec(raw).value)
  {
    hide ParseRest, WellFormed, Trim;
    if Starts(raw, EMBED_PREFIX) {
      Trimmed(raw[|EMBED_PREFIX|..]);
      RestIsWellFormed(Trim(raw[|EMBED_PREFIX|..]));
    }
  }

  // ----- every well-formed spec is parsed from some text -----

  function RenderOptions(options: Options): string {
    match options
    case Options(None, None) => ""
    case Options(Some(n), None) => TRUNCATE + Decimal(n)
    case Options(None, Some(i)) => INSTRUCTION + i
    case Options(Some(n), Some(i)) => TRUNCATE + Decimal(n) + "&" + INSTRUCTION + i
  }

  function Render(spec: EmbedSpec): string {
    EMBED_PREFIX + (SpecPart(spec) + ("#" + RenderOptions(OptionsOf(spec))))
  }

  lemma FindIs(s: string, c: char, pos: nat, i: nat)
    requires pos <= i <= |s| && (forall k :: pos <= k < i ==> s[k] != c) && (i < |s| ==> s[i] == c)
    ensures Find(s, c, pos) == i
  {
    var j := Find(s, c, pos);
    assert j < |s| ==> s[j] == c;
  }

  lemma ParsedDecimal(n: nat)
    requires n <= USIZE_MAX
    ensures ParseUsize(Decimal(n)) == Some(n)
  {
    DecimalRoundTrips(n);
    assert IsDigit(Decimal(n)[0]);
  }

  lemma InstructionRead(frag: string, pos: nat, truncateDim: Option<nat>, i: string)
    requires pos <= |frag| && frag[pos..] == INSTRUCTION + i && i != ""
    ensures OptionsFrom(frag, pos, truncateDim) == Ok(Options(truncateDim, Some(i)))
  {
    var end := Find(frag, '&', pos);
    PlainWords();
    LeadSurvives(frag, pos, INSTRUCTION, i);
    AfterOption(frag, pos, truncateDim);
    hide OptionsFrom, Find;
    var token := frag[pos..end];
    assert token[0] == INSTRUCTION[0];
    assert frag[pos + |INSTRUCTION|..] == i;
  }

  lemma PlainWords()
    ensures '&' !in INSTRUCTION && '&' !in TRUNCATE && INSTRUCTION[0] == 'i' && TRUNCATE[0] == 't'
  {
  }

  /** The first token still starts with the word that leads the text. */
  lemma LeadSurvives(frag: string, pos: nat, lead: string, rest: string)
    requires pos <= |frag| && frag[pos..] == lead + rest && '&' !in lead
    ensures Find(frag, '&', pos) >= pos + |lead| && Starts(frag[pos..Find(frag, '&', pos)], lead)
    ensures |frag| == pos + |lead| + |rest|
  {
    var end := Find(frag, '&', pos);
    assert forall k :: 0 <= k < |lead| ==> frag[pos + k] == frag[pos..][k] == lead[k];
    assert end < |frag| ==> frag[end] == '&';
    assert frag[pos..end][..|lead|] == lead;
  }

  lemma TruncateRead(frag: string, n: nat, rest: string)
    requires 0 < n <= USIZE_MAX && frag == TRUNCATE + Decimal(n) + rest && (rest == "" || rest[0] == '&')
    ensures OptionsFrom(frag, 0, None) == OptionsFrom(frag, |TRUNCATE| + |Decimal(n)| + 1, Some(n))
  {
    ParsedDecimal(n);
    PlainWords();
    NoAmpersand(n);
    FirstToken(frag, TRUNCATE + Decimal(n), rest);
    LeadOf(TRUNCATE, Decimal(n));
    AfterOption(frag, 0, None);
    hide *;
  }

  lemma NoAmpersand(n: nat)
    ensures '&' !in TRUNCATE + Decimal(n)
  {
    PlainWords();
    assert forall k :: 0 <= k < |Decimal(n)| ==> IsDigit(Decimal(n)[k]);
  }

  lemma FirstToken(frag: string, token: string, rest: string)
    requires frag == token + rest && token != "" && '&' !in token && (rest == "" || rest[0] == '&')
    ensures Find(frag, '&', 0) == |token| && frag[0..|token|] == token && 0 < |frag|
  {
    FindIs(frag, '&', 0, |token|);
  }

  lemma LeadOf(lead: string, value: string)
    ensures Starts(lead + value, lead) && (lead + value)[|lead|..] == value
  {
  }

  lemma BothRead(n: nat, i: string)
    requires 0 < n <= USIZE_MAX && i != ""
    ensures OptionsFrom(TRUNCATE + Decimal(n) + "&" + INSTRUCTION + i, 0, None) == Ok(Options(Some(n), Some(i)))
  {
    hide OptionsFrom, Decimal;
    var frag, lead := TRUNCATE + Decimal(n) + "&" + INSTRUCTION + i, TRUNCATE + Decimal(n);
    assert frag == lead + ("&" + INSTRUCTION + i);
    TruncateRead(frag, n, "&" + INSTRUCTION + i);
    assert frag == (lead + "&") + (INSTRUCTION + i);
    assert frag[|lead| + 1..] == INSTRUCTION + i;
    InstructionRead(frag, |lead| + 1, Some(n), i);
  }

  lemma OneRead(n: nat)
    requires 0 < n <= USIZE_MAX
    ensures OptionsFrom(TRUNCATE + Decimal(n), 0, None) == Ok(Options(Some(n), None))
  {
    var frag := TRUNCATE + Decimal(n);
    assert frag == frag + "";
    TruncateRead(frag, n, "");
  }

  lemma OptionsRoundTrip(options: Options)
    requires OptionsFit(options)
    ensures OptionsFrom(RenderOptions(options), 0, None) == Ok(options)
  {
    match options
    case Options(None, None) =>
    case Options(Some(n), None) =>
      hide OptionsFrom;
      OneRead(n);
    case Options(None, Some(i)) =>
      hide OptionsFrom;
      assert (INSTRUCTION + i)[0..] == INSTRUCTION + i;
      InstructionRead(INSTRUCTION + i, 0, None, i);
    case Options(Some(n), Some(i)) =>
      hide OptionsFrom;
      BothRead(n, i);
  }

  lemma AlreadyTrimmed(s: string)
    requires s != "" && !IsWhite(s[0]) && !IsWhite(s[|s| - 1])
    ensures Trim(s) == s
  {
  }

  lemma RenderedEndsDark(options: Options)
    requires OptionsFit(options)
    ensures var s := "#" + RenderOptions(options); !IsWhite(s[|s| - 1])
  {
    var s := "#" + RenderOptions(options);
    match options
    case Options(None, None) =>
    case Options(Some(n), None) =>
      assert s[|s| - 1] == Decimal(n)[|Decimal(n)| - 1];
    case Options(_, Some(i)) =>
      assert s[|s| - 1] == i[|i| - 1];
  }

  /** Backend, model and options are recognised from the text that names them. */
  lemma RecognisesItsPart(spec: EmbedSpec)
    requires BackendFits(spec)
    ensures Recognise(SpecPart(spec), OptionsOf(spec)) == spec
  {
    var part := SpecPart(spec);
    if spec.backend == OPENAI {
      assert part[..|OPENAI| + 1] == OPENAI + ":";
    } else if spec.backend == LOCAL {
      assert SLASHED[0] + "/" == "vllm/" && SLASHED[1] + "/" == "hf-local/";
      assert SLASHED[2] + "/" == "hf/" && SLASHED[3] + "/" == "kernel/";
    } else {
      var lead := spec.backend + "/";
      assert part == lead + spec.model && part[..|lead|] == lead && part[|lead|..] == spec.model;
      SlashedLeads(part, spec.backend);
    }
  }

  /** No backend's prefix is a prefix of another's. */
  lemma SlashedLeads(part: string, backend: string)
    requires backend in SLASHED && Starts(part, backend + "/")
    ensures !Starts(part, OPENAI + ":")
    ensures forall other :: other in SLASHED && Starts(part, other + "/") ==> other == backend
    ensures Starts(part, "vllm/") <==> backend == "vllm"
    ensures Starts(part, "hf-local/") <==> backend == "hf-local"
    ensures Starts(part, "hf/") <==> backend == "hf"
    ensures Starts(part, "kernel/") <==> backend == "kernel"
  {
    assert part[0] == (backend + "/")[0];
    assert backend == "hf" || backend == "hf-local" ==> part[2] == (backend + "/")[2];
  }

  lemma ParsesBack(spec: EmbedSpec)
    requires WellFormed(spec)
    ensures ParseEmbedSpec(Render(spec)) == Ok(spec)
  {
    var options := OptionsOf(spec);
    hide BackendFits, OptionsFit, SpecPart, RenderOptions, Recognise, OptionsFrom, ParseEmbedSpec, IsWhite;
    RenderedEndsDark(options);
    OptionsRoundTrip(options);
    RecognisesItsPart(spec);
    ParsesParts(SpecPart(spec), RenderOptions(options), options);
  }

  /** A text put together from a spec and its options is taken apart again. */
  lemma ParsesParts(part: string, frag: string, options: Options)
    requires part != "" && !IsWhite(part[0]) && '#' !in part && !IsWhite(("#" + frag)[|frag|])
    requires OptionsFrom(frag, 0, None) == Ok(options)
    ensures ParseEmbedSpec(EMBED_PREFIX + (part + ("#" + frag))) == Ok(Recognise(part, options))
  {
    hide IsWhite, OptionsFrom, Recognise, Trim, ParseRest;
    var rest := part + ("#" + frag);
    assert rest[|rest| - 1] == ("#" + frag)[|frag|];
    AlreadyTrimmed(rest);
    AfterPrefix(EMBED_PREFIX, rest);
    ParsesRest(part, frag, options);
  }

  lemma AfterPrefix(prefix: string, rest: string)
    ensures Starts(prefix + rest, prefix) && (prefix + rest)[|prefix|..] == rest
  {
  }

  lemma ParsesRest(part: string, frag: string, options: Options)
    requires part != "" && !IsWhite(part[0]) && '#' !in part
    requires OptionsFrom(frag, 0, None) == Ok(options)
    ensures ParseRest(part + ("#" + frag)) == Ok(Recognise(part, options))
  {
    hide IsWhite, OptionsFrom, Recognise, Find;
    var rest := part + ("#" + frag);
    FindIs(rest, '#', 0, |part|);
    assert rest[..|part|] == part && rest[|part| + 1..] == frag;
  }

  /** Exactly the well-formed specs can be returned. */
  lemma WellFormedIsTheImage(spec: EmbedSpec)
    ensures WellFormed(spec) <==> exists raw :: ParseEmbedSpec(raw) == Ok(spec)
  {
    if WellFormed(spec) { ParsesBack(spec); }
    if raw :| ParseEmbedSpec(raw) == Ok(spec) { ParsedIsWellFormed(raw); }
  }

  // ----- the identity string -----

  function Head(spec: EmbedSpec): string {
    if spec.baseUrl.Some? then spec.backend + ":" + spec.model + "@" + spec.baseUrl.value
    else spec.backend + ":" + spec.model
  }

  function TruncatePart(t: Option<nat>): string {
    if t.Some? then "#" + TRUNCATE + Decimal(t.value) else ""
  }

  function InstructionPart(i: Option<string>): string {
    if i.Some? then "#" + INSTRUCTION + i.value else ""
  }

  function VersionString(spec: EmbedSpec): string {
    Head(spec) + (TruncatePart(spec.truncateDim) + InstructionPart(spec.instruction))
  }

  /** A text cut at the first `c` is cut in one way only. */
  lemma CutAt(c: char, a: string, b: string, a': string, b': string)
    requires a + b == a' + b' && c !in a && c !in a'
    requires (b == "" || b[0] == c) && (b' == "" || b'[0] == c)
    ensures a == a' && b == b'
  {
    FindIs(a + b, c, 0, |a|);
    FindIs(a' + b', c, 0, |a'|);
    assert (a + b)[..|a|] == a && (a' + b')[..|a|] == a';
    assert (a + b)[|a|..] == b && (a' + b')[|a|..] == b';
  }

  lemma DecimalIsInjective(m: nat, n: nat)
    requires Decimal(m) == Decimal(n)
    ensures m == n
  {
    DecimalRoundTrips(m);
    DecimalRoundTrips(n);
  }

  lemma TailsAgree(t: Option<nat>, i: Option<string>, t': Option<nat>, i': Option<string>)
    requires TruncatePart(t) + InstructionPart(i) == TruncatePart(t') + InstructionPart(i')
    ensures t == t' && i == i'
  {
    hide Decimal, TruncatePart, InstructionPart;
    TailMark(t, i);
    TailMark(t', i');
    if t.Some? {
      var n := |TRUNCATE| + 1;
      TruncateFirst(t.value, i);
      TruncateFirst(t'.value, i');
      CutAt('#', Decimal(t.value), InstructionPart(i), Decimal(t'.value), InstructionPart(i'));
      DecimalIsInjective(t.value, t'.value);
    } else {
      NothingFirst(i);
      NothingFirst(i');
    }
    InstructionsAgree(i, i');
  }

  /** The second character tells whether a truncation comes first. */
  lemma TailMark(t: Option<nat>, i: Option<string>)
    ensures var s := TruncatePart(t) + InstructionPart(i); t.Some? <==> |s| > 1 && s[1] == 't'
  {
    var s := TruncatePart(t) + InstructionPart(i);
    if t.Some? {
      assert TruncatePart(t) == ("#" + TRUNCATE) + Decimal(t.value);
      assert s[1] == TruncatePart(t)[1] == ("#" + TRUNCATE)[1];
    } else if i.Some? {
      assert InstructionPart(i) == ("#" + INSTRUCTION) + i.value;
      assert s[1] == InstructionPart(i)[1] == ("#" + INSTRUCTION)[1];
    }
  }

  lemma TruncateFirst(n: nat, i: Option<string>)
    ensures (TruncatePart(Some(n)) + InstructionPart(i))[|TRUNCATE| + 1..] == Decimal(n) + InstructionPart(i)
    ensures '#' !in Decimal(n) && (InstructionPart(i) == "" || InstructionPart(i)[0] == '#')
    ensures |TruncatePart(Some(n))| >= |TRUNCATE| + 1
  {
    assert TruncatePart(Some(n)) == ("#" + TRUNCATE) + Decimal(n);
    StartsWithHash(i);
    NoHashInDecimal(n);
    hide TruncatePart, InstructionPart, Decimal;
    DropLead("#" + TRUNCATE, Decimal(n), InstructionPart(i));
  }

  lemma StartsWithHash(i: Option<string>)
    ensures InstructionPart(i) == "" || InstructionPart(i)[0] == '#'
  {
  }

  lemma NoHashInDecimal(n: nat)
    ensures '#' !in Decimal(n)
  {
    assert forall k :: 0 <= k < |Decimal(n)| ==> IsDigit(Decimal(n)[k]);
  }

  lemma DropLead(lead: string, d: string, rest: string)
    ensures ((lead + d) + rest)[|lead|..] == d + rest && |lead + d| >= |lead|
  {
  }

  lemma NothingFirst(i: Option<string>)
    ensures TruncatePart(None) + InstructionPart(i) == InstructionPart(i)
  {
  }

  lemma InstructionsAgree(i: Option<string>, i': Option<string>)
    ensures InstructionPart(i) == InstructionPart(i') ==> i == i'
  {
    var n := |INSTRUCTION| + 1;
    if i.Some? && i'.Some? {
      assert InstructionPart(i)[n..] == i.value && InstructionPart(i')[n..] == i'.value;
    }
  }

  lemma HeadHasNoHash(spec: EmbedSpec)
    requires WellFormed(spec)
    ensures '#' !in Head(spec) && ':' !in spec.backend
  {
    BackendIsPlain(spec);
    var lead := if spec.backend in SLASHED then spec.backend + "/" else "";
    assert SpecPart(spec) == lead + spec.model;
    hide BackendFits, SpecPart, OptionsFit, IsWhite;
    NotInSuffix('#', lead, spec.model);
    if spec.baseUrl.Some? {
      var url := spec.baseUrl.value;
      NotInSuffix('#', OPENAI + ":", url);
      NotInConcat('#', spec.backend, ":" + spec.model + "@" + url);
    } else {
      NotInConcat('#', spec.backend, ":" + spec.model);
    }
  }

  predicate Plain(s: string) { forall i :: 0 <= i < |s| ==> s[i] != '#' && s[i] != ':' }

  lemma OpenaiIsPlain()
    ensures Plain(OPENAI)
  {
  }

  lemma OthersArePlain()
    ensures Plain(LOCAL) && Plain("vllm") && Plain("hf-local") && Plain("hf") && Plain("kernel")
  {
  }

  lemma BackendIsPlain(spec: EmbedSpec)
    requires BackendFits(spec)
    ensures '#' !in spec.backend && ':' !in spec.backend
    ensures spec.baseUrl.Some? ==> spec.model == OPENAI + ":" + spec.baseUrl.value
  {
    OpenaiIsPlain();
    OthersArePlain();
    assert spec.backend in SLASHED ==>
      spec.backend == "vllm" || spec.backend == "hf-local" || spec.backend == "hf" || spec.backend == "kernel";
    hide Plain;
    PlainHasNeither(spec.backend);
  }

  lemma PlainHasNeither(s: string)
    requires Plain(s)
    ensures '#' !in s && ':' !in s
  {
  }

  lemma NotInSuffix(c: char, a: string, b: string)
    requires c !in a + b
    ensures c !in b
  {
    assert forall i :: 0 <= i < |b| ==> (a + b)[|a| + i] == b[i];
  }

  lemma NotInConcat(c: char, a: string, b: string)
    requires c !in a && c !in b
    ensures c !in a + b
  {
  }

  lemma HeadsAgree(a: EmbedSpec, b: EmbedSpec)
    requires WellFormed(a) && WellFormed(b) && Head(a) == Head(b)
    ensures a.backend == b.backend && a.model == b.model && a.baseUrl == b.baseUrl
  {
    hide Head, HeadRest;
    HeadHasNoHash(a);
    HeadHasNoHash(b);
    HeadParts(a);
    HeadParts(b);
    CutAt(':', a.backend, HeadRest(a), b.backend, HeadRest(b));
  }

  function HeadRest(spec: EmbedSpec): string {
    if spec.baseUrl.Some? then ":" + spec.model + "@" + spec.baseUrl.value else ":" + spec.model
  }

  /** What can be read back from the part after the backend: the URL ends it and is half of it. */
  lemma HeadParts(spec: EmbedSpec)
    requires WellFormed(spec)
    ensures Head(spec) == spec.backend + HeadRest(spec) && HeadRest(spec)[0] == ':'
    ensures spec.backend != OPENAI ==> spec.baseUrl.None? && spec.model == HeadRest(spec)[1..]
    ensures spec.backend == OPENAI ==>
              && spec.baseUrl.Some? && spec.model == OPENAI + ":" + spec.baseUrl.value
              && |HeadRest(spec)| == |OPENAI| + 3 + 2 * |spec.baseUrl.value|
              && spec.baseUrl.value == HeadRest(spec)[|HeadRest(spec)| - |spec.baseUrl.value|..]
  {
    assert spec.backend + (":" + spec.model) == spec.backend + ":" + spec.model;
  }

  /** Two engines share an identity only if backend, model, URL, truncation and instruction all agree. */
  lemma VersionIsInjective(raw: string, raw': string)
    requires ParseEmbedSpec(raw).Ok? && ParseEmbedSpec(raw').Ok?
    ensures VersionString(ParseEmbedSpec(raw).value) == VersionString(ParseEmbedSpec(raw').value)
       <==> ParseEmbedSpec(raw) == ParseEmbedSpec(raw')
  {
    var a, b := ParseEmbedSpec(raw).value, ParseEmbedSpec(raw').value;
    ParsedIsWellFormed(raw);
    ParsedIsWellFormed(raw');
    if VersionString(a) == VersionString(b) {
      var ta := TruncatePart(a.truncateDim) + InstructionPart(a.instruction);
      var tb := TruncatePart(b.truncateDim) + InstructionPart(b.instruction);
      HeadHasNoHash(a);
      HeadHasNoHash(b);
      CutAt('#', Head(a), ta, Head(b), tb);
      HeadsAgree(a, b);
      TailsAgree(a.truncateDim, a.instruction, b.truncateDim, b.instruction);
    }
  }
}
