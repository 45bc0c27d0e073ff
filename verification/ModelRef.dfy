/** Naming a model: `provider://model` and its two shorter shapes, parsed and printed. */
module ModelRef {
  import opened Bytes
  import opened Whitespace

  const SEP: string := "://"

  datatype ModelRefError = MissingSeparator | EmptyProvider | EmptyModel

  datatype Ref = Ref(provider: string, model: string)
  datatype Spec = Full(ref: Ref) | ModelOnly(model: string) | ProviderOnly(provider: string)

  // ---- provider names ----

  function LowerChar(c: char): char {
    if 'A' <= c <= 'Z' then (c as int + 32) as char else c
  }

  /** `to_ascii_lowercase` */
  function Lower(s: string): (r: string)
    ensures |r| == |s|
  {
    seq(|s|, i requires 0 <= i < |s| => LowerChar(s[i]))
  }

  /** The built-in aliases. */
  function Fold(s: string): string {
    if s in {"zen", "opencode", "opencode-zen"} then "zen"
    else if s in {"go", "opencode-go"} then "go"
    else if s in {"claude", "anthropic"} then "claude"
    else if s in {"openai", "chatgpt", "codex", "openai-oauth"} then "openai"
    else if s in {"local", "infr"} then "local"
    else if s == "openrouter" then "openrouter"
    else s
  }

  /** `ProviderName::new` */
  function ProviderName(name: string): string { Fold(Lower(Trim(name))) }

  /** Which names mean which provider: case and the whitespace around a name do not matter, and any other
      name is a provider of its own, in lower case. */
  lemma Aliases(name: string)
    ensures var s := Lower(Trim(name));
            && (ProviderName(name) == "zen" <==> s in {"zen", "opencode", "opencode-zen"})
            && (ProviderName(name) == "go" <==> s in {"go", "opencode-go"})
            && (ProviderName(name) == "claude" <==> s in {"claude", "anthropic"})
            && (ProviderName(name) == "openai" <==> s in {"openai", "chatgpt", "codex", "openai-oauth"})
            && (ProviderName(name) == "local" <==> s in {"local", "infr"})
            && (ProviderName(name) == s || ProviderName(name) in {"zen", "go", "claude", "openai", "local"})
    ensures forall i :: 0 <= i < |Trim(name)| ==>
              var c := Trim(name)[i];
              Lower(Trim(name))[i] == if 'A' <= c <= 'Z' then (c as int - 'A' as int + 'a' as int) as char else c
  {
  }

  /** A name canonicalizing leaves alone. */
  predicate Canonical(p: string) { Trimmed(p) && Lower(p) == p && Fold(p) == p }

  predicate IsFolded(p: string) {
    p == "zen" || p == "go" || p == "claude" || p == "openai" || p == "local" || p == "openrouter"
  }

  lemma FoldRange(s: string)
    ensures Fold(s) == s || IsFolded(Fold(s))
  {
  }

  lemma FoldedStays(p: string)
    requires IsFolded(p)
    ensures Fold(p) == p && p != [] && Trimmed(p) && ':' !in p
    ensures forall i :: 0 <= i < |p| ==> 'a' <= p[i] <= 'z'
  {
  }

  /** A name in lower case with nothing to trim folds to a canonical one, and folding is idempotent. */
  lemma FoldIsCanonical(s: string)
    requires Trimmed(s) && Lower(s) == s
    ensures Canonical(Fold(s)) && (Fold(s) == [] <==> s == [])
  {
    FoldRange(s);
    hide Fold;
    if Fold(s) != s {
      FoldedStays(Fold(s));
      hide IsFolded;
      assert Fold(s) != [];
      if s == [] { EmptyIsNoAlias(); }
    }
  }

  lemma EmptyIsNoAlias()
    ensures Fold([]) == []
  {
  }

  lemma LowerKeeps(s: string)
    ensures Lower(Lower(s)) == Lower(s)
    ensures Trimmed(s) ==> Trimmed(Lower(s))
    ensures forall i :: SepOccurs(Lower(s), i) <==> SepOccurs(s, i)
  {
  }

  lemma ProviderNameCanonical(name: string)
    ensures Canonical(ProviderName(name)) && (ProviderName(name) == [] <==> Trim(name) == [])
  {
    var i, j := TrimSlice(name);
    LowerKeeps(Trim(name));
    FoldIsCanonical(Lower(Trim(name)));
  }

  /** Canonicalizing twice is canonicalizing once. */
  lemma ProviderNameIdempotent(name: string)
    ensures ProviderName(ProviderName(name)) == ProviderName(name)
  {
    ProviderNameCanonical(name);
    CanonicalStays(ProviderName(name));
  }

  lemma CanonicalStays(p: string)
    requires Canonical(p)
    ensures ProviderName(p) == p
  {
    var i, j := TrimSlice(p);
  }

  // ---- the separator ----

  predicate SepOccurs(s: string, i: int) {
    0 <= i && i + 3 <= |s| && s[i] == ':' && s[i + 1] == '/' && s[i + 2] == '/'
  }

  predicate HasSep(s: string) { exists i :: 0 <= i < |s| && SepOccurs(s, i) }

  predicate EndsInSep(s: string) { SepOccurs(s, |s| - 3) }

  /** Where the separator first occurs; the end of the string if it does not. */
  function SepAt(s: string): (r: nat)
    ensures r <= |s|
  {
    if s == [] || SepOccurs(s, 0) then 0 else 1 + SepAt(s[1..])
  }

  lemma {:induction false} SepAtIsFirst(s: string)
    ensures forall i :: i < SepAt(s) ==> !SepOccurs(s, i)
    ensures SepAt(s) < |s| ==> SepOccurs(s, SepAt(s))
  {
    if s != [] && !SepOccurs(s, 0) {
      SepAtIsFirst(s[1..]);
      forall i | SepOccurs(s, i)
        ensures SepOccurs(s[1..], i - 1)
      {
      }
      assert forall i :: SepOccurs(s[1..], i) ==> SepOccurs(s, i + 1);
    }
  }

  lemma SepAtUnique(s: string, i: nat)
    requires SepOccurs(s, i) && forall j :: 0 <= j < i ==> !SepOccurs(s, j)
    ensures SepAt(s) == i
  {
    SepAtIsFirst(s);
  }

  // ---- parsing and printing ----

  /** `ModelRef::new` */
  function NewRef(provider: string, model: string): Result<Ref, ModelRefError> {
    if provider == [] then Err(EmptyProvider)
    else if Trim(model) == [] then Err(EmptyModel)
    else Ok(Ref(provider, Trim(model)))
  }

  /** `ModelRef::from_str`: split once, at the first separator. */
  function ParseRef(text: string): Result<Ref, ModelRefError> {
    var s := Trim(text);
    var at := SepAt(s);
    if at == |s| then Err(MissingSeparator)
    else
      SepAtIsFirst(s);
      if Trim(s[..at]) == [] then Err(EmptyProvider)
      else NewRef(ProviderName(s[..at]), s[at + 3..])
  }

  /** A text names a model by its first separator: a provider before it and a model behind it, both more than
      whitespace. Each error has its own cause. */
  lemma ParsesExactly(text: string, at: nat)
    ensures var s := Trim(text);
            && (ParseRef(text) == Err(MissingSeparator) <==> forall i :: !SepOccurs(s, i))
            && (SepOccurs(s, at) && (forall i :: 0 <= i < at ==> !SepOccurs(s, i)) ==>
                  ParseRef(text) == if Trim(s[..at]) == [] then Err(EmptyProvider)
                                    else if Trim(s[at + 3..]) == [] then Err(EmptyModel)
                                    else Ok(Ref(ProviderName(s[..at]), Trim(s[at + 3..]))))
  {
    var s := Trim(text);
    SepAtIsFirst(s);
    hide Trim, ProviderName, SepOccurs;
    if SepAt(s) < |s| {
      var first := SepAt(s);
      ProviderNameCanonical(s[..first]);
      NoRefErrs(ProviderName(s[..first]), s[first + 3..]);
    } else {
      NoSepFrom(s);
    }
    if SepOccurs(s, at) && forall i :: 0 <= i < at ==> !SepOccurs(s, i) { SepAtUnique(s, at); }
  }

  lemma NoRefErrs(provider: string, model: string)
    ensures NewRef(provider, model) != Err(MissingSeparator)
  {
  }

  lemma NoSepFrom(s: string)
    requires SepAt(s) == |s|
    ensures forall i :: !SepOccurs(s, i)
  {
    SepAtIsFirst(s);
  }

  function PrintRef(r: Ref): string { r.provider + SEP + r.model }

  /** `ModelSpec::from_str` */
  function ParseSpec(text: string): Result<Spec, ModelRefError> {
    var s := Trim(text);
    if EndsInSep(s) then
      var provider := Trim(s[..|s| - 3]);
      if provider == [] then Err(EmptyProvider) else Ok(ProviderOnly(ProviderName(provider)))
    else if SepAt(s) < |s| then
      var r := ParseRef(s);
      if r.Ok? then Ok(Full(r.value)) else Err(r.error)
    else if s == [] then Err(EmptyModel)
    else Ok(ModelOnly(s))
  }

  /** A spec that ends in the separator is a provider, one that holds it further in a reference, any other a
      model; only the empty one and a bare separator are none of them. */
  lemma SpecParsesExactly(text: string)
    ensures var s := Trim(text);
            if |s| >= 3 && s[|s| - 3..] == "://" then
              ParseSpec(text) == if Trim(s[..|s| - 3]) == [] then Err(EmptyProvider) else Ok(ProviderOnly(ProviderName(s[..|s| - 3])))
            else if exists i :: SepOccurs(s, i) then
              ParseSpec(text) == match ParseRef(text) case Ok(r) => Ok(Full(r)) case Err(e) => Err(e)
            else
              ParseSpec(text) == if s == [] then Err(EmptyModel) else Ok(ModelOnly(s))
  {
    var s := Trim(text);
    EndsInSepIs(s);
    TrimTwice(text);
    hide Trim, EndsInSep, SepOccurs, ProviderName;
    if EndsInSep(s) {
      NameOfTrimmed(s[..|s| - 3]);
    } else if SepAt(s) < |s| {
      SepAtIsFirst(s);
      ParseOfTrimmed(text);
    } else {
      NoSepFrom(s);
    }
  }

  lemma EndsInSepIs(s: string)
    ensures EndsInSep(s) <==> |s| >= 3 && s[|s| - 3..] == "://"
  {
    if |s| >= 3 { assert s[|s| - 3..] == [s[|s| - 3], s[|s| - 2], s[|s| - 1]]; }
  }

  lemma TrimTwice(s: string)
    ensures Trim(Trim(s)) == Trim(s)
  {
    var i, j := TrimSlice(s);
    var k, l := TrimSlice(Trim(s));
    hide Trim;
  }

  lemma NameOfTrimmed(name: string)
    ensures ProviderName(Trim(name)) == ProviderName(name)
  {
    TrimTwice(name);
    hide Trim, Fold, Lower;
  }

  lemma ParseOfTrimmed(text: string)
    ensures ParseRef(Trim(text)) == ParseRef(text)
  {
    TrimTwice(text);
    hide Trim, ProviderName, SepAt;
  }

  function PrintSpec(v: Spec): string {
    match v
    case Full(r) => PrintRef(r)
    case ModelOnly(m) => m
    case ProviderOnly(p) => p + SEP
  }

  /** `ModelSpec::apply` */
  function Apply(v: Spec, base: Ref): Option<Ref> {
    match v
    case Full(r) => Some(r)
    case ModelOnly(m) => Some(Ref(base.provider, m))
    case ProviderOnly(_) => None
  }

  /** What `ModelRef::new` builds from any provider name and any model that it accepts. */
  predicate WellFormed(r: Ref) {
    r.provider != [] && Canonical(r.provider) && r.model != [] && Trimmed(r.model)
  }

  lemma NewIsWellFormed(name: string, model: string)
    requires NewRef(ProviderName(name), model).Ok?
    ensures WellFormed(NewRef(ProviderName(name), model).value)
  {
    ProviderNameCanonical(name);
    var i, j := TrimSlice(model);
  }

  // ---- the round trip ----

  lemma PrintedIsTrimmed(r: Ref)
    requires WellFormed(r)
    ensures Trim(PrintRef(r)) == PrintRef(r)
  {
    var s := PrintRef(r);
    assert s[0] == r.provider[0] && s[|s| - 1] == r.model[|r.model| - 1];
    var i, j := TrimSlice(s);
  }

  /** The separator cannot straddle the join: where it occurs, it occurs in the provider, at the join, or
      in the model. */
  lemma NoStraddle(r: Ref, i: int)
    requires 0 <= i < |r.provider|
    ensures SepOccurs(PrintRef(r), i) <==> SepOccurs(r.provider, i)
  {
    var s, n := PrintRef(r), |r.provider|;
    assert s[..n] == r.provider && s[n] == ':' && s[n + 1] == '/' && s[n + 2] == '/';
    assert i + 1 == n || i + 2 == n || i + 3 <= n;
  }

  lemma JoinSplits(r: Ref)
    ensures var s, n := PrintRef(r), |r.provider|;
            SepOccurs(s, n) && s[..n] == r.provider && s[n + 3..] == r.model
  {
  }

  lemma CleanRefRoundTrips(r: Ref)
    requires WellFormed(r) && !HasSep(r.provider)
    ensures ParseRef(PrintRef(r)) == Ok(r)
  {
    var s, n := PrintRef(r), |r.provider|;
    PrintedIsTrimmed(r);
    JoinSplits(r);
    forall i | 0 <= i < n
      ensures !SepOccurs(s, i)
    {
      NoStraddle(r, i);
    }
    SepAtUnique(s, n);
    CanonicalStays(r.provider);
    var i, j := TrimSlice(r.model);
    var i', j' := TrimSlice(r.provider);
    hide Trim, SepOccurs, SepAt, PrintRef, Canonical, ProviderName;
  }

  /** Exactly the references whose provider holds no separator survive being printed and parsed. Every
      reference that was parsed is one; `ModelRef::new` accepts others. */
  lemma RefRoundTrips(r: Ref)
    requires WellFormed(r)
    ensures ParseRef(PrintRef(r)) == Ok(r) <==> !HasSep(r.provider)
  {
    if !HasSep(r.provider) {
      CleanRefRoundTrips(r);
    } else if ParseRef(PrintRef(r)) == Ok(r) {
      ParsedProviderHasNoSep(PrintRef(r));
    }
  }

  /** Building one is that easy: the provider "a://b" is accepted as it is, and the printed reference reads
      back as the model "b://c" of a provider "a". */
  lemma SeparatorInProviderIsLost()
    ensures ProviderName("a://b") == "a://b" && HasSep("a://b") && NewRef("a://b", "c") == Ok(Ref("a://b", "c"))
    ensures WellFormed(Ref("a://b", "c")) && ParseRef(PrintRef(Ref("a://b", "c"))) == Ok(Ref("a", "b://c"))
  {
    var s := PrintRef(Ref("a://b", "c"));
    assert s == "a://b://c" && s[..1] == "a" && s[4..] == "b://c";
    assert SepOccurs("a://b", 1) && !SepOccurs(s, 0) && SepOccurs(s, 1);
    PlainNames();
    TrimmedStays("c");
    TrimmedStays("b://c");
    TrimmedStays(s);
    TrimmedStays("a");
    hide Trim, ProviderName, SepOccurs, PrintRef, Trimmed, Fold, Lower, SepAt, IsWhitespace;
    SepAtUnique(s, 1);
  }

  lemma PlainNames()
    ensures ProviderName("a://b") == "a://b" && Canonical("a://b") && ProviderName("a") == "a"
  {
    assert Lower("a://b") == "a://b" && Lower("a") == "a";
    CanonicalStays("a://b");
    CanonicalStays("a");
  }

  lemma TrimmedStays(s: string)
    requires Trimmed(s)
    ensures Trim(s) == s
  {
    var i, j := TrimSlice(s);
  }

  lemma PrefixHasNoSep(s: string)
    ensures !HasSep(s[..SepAt(s)])
  {
    SepAtIsFirst(s);
    forall i | SepOccurs(s[..SepAt(s)], i)
      ensures SepOccurs(s, i)
    {
    }
  }

  lemma ProviderNameHasNoSep(name: string)
    requires !HasSep(name)
    ensures !HasSep(ProviderName(name))
  {
    var i, j := TrimSlice(name);
    forall k | SepOccurs(Trim(name), k)
      ensures SepOccurs(name, i + k)
    {
    }
    LowerKeeps(Trim(name));
    var s := Lower(Trim(name));
    FoldRange(s);
    hide Fold, IsFolded, Trim, Lower;
    if Fold(s) != s { FoldedStays(Fold(s)); }
  }

  lemma ParsedProviderHasNoSep(text: string)
    requires ParseRef(text).Ok?
    ensures !HasSep(ParseRef(text).value.provider)
  {
    var s := Trim(text);
    PrefixHasNoSep(s);
    ProviderNameHasNoSep(s[..SepAt(s)]);
  }

  /** So whatever parses prints back to itself. */
  lemma ParsedRefRoundTrips(text: string)
    requires ParseRef(text).Ok?
    ensures WellFormed(ParseRef(text).value) && ParseRef(PrintRef(ParseRef(text).value)) == ParseRef(text)
  {
    var s := Trim(text);
    SepAtIsFirst(s);
    NewIsWellFormed(s[..SepAt(s)], s[SepAt(s) + 3..]);
    ParsedProviderHasNoSep(text);
    RefRoundTrips(ParseRef(text).value);
  }

  // ---- the three shapes ----

  /** What the constructors of a spec can hold. */
  predicate SpecWellFormed(v: Spec) {
    match v
    case Full(r) => WellFormed(r)
    case ModelOnly(_) => true
    case ProviderOnly(p) => Canonical(p)
  }

  /** Printing it leaves no doubt about its shape. */
  predicate Unambiguous(v: Spec) {
    match v
    case Full(r) => !HasSep(r.provider) && !EndsInSep(r.model)
    case ModelOnly(m) => m != [] && Trimmed(m) && !HasSep(m)
    case ProviderOnly(p) => p != []
  }

  lemma NoEndingSep(r: Ref)
    requires r.model != [] && !EndsInSep(r.model)
    ensures !EndsInSep(PrintRef(r))
  {
    var s, n, m := PrintRef(r), |r.provider|, |r.model|;
    assert s[n + 1] == '/' && s[n + 2] == '/';
    assert forall i :: 0 <= i < m ==> s[n + 3 + i] == r.model[i];
    if m > 2 { assert s[|s| - 3] == r.model[m - 3] && s[|s| - 2] == r.model[m - 2] && s[|s| - 1] == r.model[m - 1]; }
  }

  lemma FullRoundTrips(r: Ref)
    requires WellFormed(r) && Unambiguous(Full(r))
    ensures ParseSpec(PrintRef(r)) == Ok(Full(r))
  {
    PrintedIsTrimmed(r);
    NoEndingSep(r);
    CleanRefRoundTrips(r);
  }

  lemma ProviderOnlyRoundTrips(p: string)
    requires Canonical(p) && p != []
    ensures ParseSpec(p + SEP) == Ok(ProviderOnly(p))
  {
    var s := p + SEP;
    assert s[0] == p[0] && s[|s| - 1] == '/' && s[..|s| - 3] == p;
    var i, j := TrimSlice(s);
    var i', j' := TrimSlice(p);
    CanonicalStays(p);
  }

  lemma ModelOnlyRoundTrips(m: string)
    requires Unambiguous(ModelOnly(m))
    ensures ParseSpec(m) == Ok(ModelOnly(m))
  {
    var i, j := TrimSlice(m);
    SepAtIsFirst(m);
  }

  /** What parsing yields is well formed and unambiguous. */
  lemma ParsedSpecIsUnambiguous(text: string)
    requires ParseSpec(text).Ok?
    ensures SpecWellFormed(ParseSpec(text).value) && Unambiguous(ParseSpec(text).value)
  {
    hide Trim, ProviderName, SepOccurs, EndsInSep, Canonical;
    var s := Trim(text);
    TrimTwice(text);
    EndsInSepIs(s);
    if EndsInSep(s) {
      TrimTwice(s[..|s| - 3]);
      ProviderNameCanonical(Trim(s[..|s| - 3]));
    } else if SepAt(s) < |s| {
      ParsedRefRoundTrips(s);
      ParsedProviderHasNoSep(s);
      ModelRunsToTheEnd(s);
    } else {
      NoSepFrom(s);
      var i, j := TrimSlice(text);
    }
  }

  lemma EndOfEnd(s: string, k: nat)
    requires k <= |s|
    ensures EndsInSep(s[k..]) ==> EndsInSep(s)
  {
    var t := s[k..];
    if EndsInSep(t) { assert t[|t| - 3] == s[|s| - 3] && t[|t| - 2] == s[|s| - 2] && t[|t| - 1] == s[|s| - 1]; }
  }

  lemma TrimmedTail(s: string, at: nat)
    requires at <= |s| && s != [] && !IsWhitespace(s[|s| - 1]) && !EndsInSep(s)
    ensures !EndsInSep(Trim(s[at..]))
  {
    var rest := s[at..];
    var i, j := TrimSlice(rest);
    hide Trim;
    if rest != [] {
      assert rest[|rest| - 1] == s[|s| - 1];
      assert rest[i..j] == s[at + i..];
      EndOfEnd(s, at + i);
    }
  }

  /** The model of a reference is the end of the trimmed text, so it ends in a separator only if that does. */
  lemma ModelRunsToTheEnd(s: string)
    requires Trim(s) == s && ParseRef(s).Ok? && !EndsInSep(s)
    ensures !EndsInSep(ParseRef(s).value.model)
  {
    SepAtIsFirst(s);
    var i, j := TrimSlice(s);
    hide Trim, EndsInSep;
    TrimmedTail(s, SepAt(s) + 3);
  }

  /** Exactly the unambiguous specs survive being printed and parsed. */
  lemma SpecRoundTrips(v: Spec)
    requires SpecWellFormed(v)
    ensures ParseSpec(PrintSpec(v)) == Ok(v) <==> Unambiguous(v)
  {
    if ParseSpec(PrintSpec(v)) == Ok(v) { ParsedSpecIsUnambiguous(PrintSpec(v)); }
    if Unambiguous(v) {
      match v {
        case Full(r) => FullRoundTrips(r);
        case ModelOnly(m) => ModelOnlyRoundTrips(m);
        case ProviderOnly(p) => ProviderOnlyRoundTrips(p);
      }
    }
  }

  /** And everything parsed is one, so a config file carries a spec through any number of rewrites. */
  lemma ParsedSpecRoundTrips(text: string)
    requires ParseSpec(text).Ok?
    ensures ParseSpec(PrintSpec(ParseSpec(text).value)) == ParseSpec(text)
  {
    ParsedSpecIsUnambiguous(text);
    SpecRoundTrips(ParseSpec(text).value);
  }

  lemma ApplyKeeps(v: Spec, base: Ref)
    requires SpecWellFormed(v) && Unambiguous(v) && WellFormed(base) && !HasSep(base.provider)
    ensures var r := Apply(v, base);
            && (r.None? <==> v.ProviderOnly?)
            && (r.Some? ==> WellFormed(r.value) && !HasSep(r.value.provider) && Apply(v, r.value) == r)
  {
  }

  /** Resolving a parsed spec against a parsed identity: only a bare provider has no answer; the answer is
      itself an identity that survives printing, and resolving again changes nothing. */
  lemma ApplyResolves(text: string, baseText: string)
    requires ParseSpec(text).Ok? && ParseRef(baseText).Ok?
    ensures var v, base := ParseSpec(text).value, ParseRef(baseText).value;
            var r := Apply(v, base);
            && (r.None? <==> v.ProviderOnly?)
            && (r.Some? ==> WellFormed(r.value) && ParseRef(PrintRef(r.value)) == Ok(r.value) && Apply(v, r.value) == r)
            && (v.ModelOnly? ==> r == Some(Ref(base.provider, v.model)))
  {
    ParsedSpecIsUnambiguous(text);
    ParsedRefRoundTrips(baseText);
    ParsedProviderHasNoSep(baseText);
    hide ParseSpec, ParseRef, PrintRef, HasSep, WellFormed, Unambiguous, SpecWellFormed;
    var v, base := ParseSpec(text).value, ParseRef(baseText).value;
    ApplyKeeps(v, base);
    var r := Apply(v, base);
    if r.Some? { RefRoundTrips(r.value); }
  }
}
