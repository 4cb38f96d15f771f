/** `EnabledClient#interpolate`: every full placeholder of a manifest outside the
    ignored subtrees is replaced by the value the config server holds for it; name
    syntax errors are raised at once, fetch errors are all collected and raised together. */
module Interpolation {
  import opened Wrappers
  import opened Values
  import opened PlaceholderNames
  import opened ConfigFetch

  /** One element of an ignored-subtree path: a literal key, or the classes `Integer`
      (any array index) and `String` (any hash key) used as wildcards. */
  datatype PatternStep = Exact(key: string) | AnyIndex | AnyKey

  type Pattern = seq<PatternStep>

  predicate StepMatches(ps: PatternStep, st: Step) {
    match ps
    case Exact(k) => st == Key(k)
    case AnyIndex => st.Index?
    case AnyKey => st.Key?
  }

  /** The pattern matches the first |pat| steps of the path, so the path lies in the
      subtree the pattern names. */
  predicate Covers(pat: Pattern, path: Path) {
    |pat| <= |path| && forall i :: 0 <= i < |pat| ==> StepMatches(pat[i], path[i])
  }

  predicate Ignored(ignore: seq<Pattern>, path: Path) {
    exists j :: 0 <= j < |ignore| && Covers(ignore[j], path)
  }

  /** Everything below an ignored path is ignored as well. */
  lemma IgnoredBelow(ignore: seq<Pattern>, path: Path, more: Path)
    requires Ignored(ignore, path)
    ensures Ignored(ignore, path + more)
  {
    var j :| 0 <= j < |ignore| && Covers(ignore[j], path);
    assert Covers(ignore[j], path + more);
  }

  predicate AllFull(ps: seq<string>) {
    forall s :: s in ps ==> IsFullPlaceholder(s)
  }

  /** Concatenation of a sequence of sequences. */
  function Flatten(xss: seq<seq<string>>): (r: seq<string>)
    ensures (forall i :: 0 <= i < |xss| ==> AllFull(xss[i])) ==> AllFull(r)
  {
    if xss == [] then []
    else
      var rest := Flatten(xss[1..]);
      assert (forall i :: 0 <= i < |xss| ==> AllFull(xss[i])) ==>
        forall i :: 0 <= i < |xss[1..]| ==> AllFull(xss[1..][i]);
      xss[0] + rest
  }

  /** Whatever one of the sequences holds, the concatenation holds. */
  lemma {:induction false} InFlatten(xss: seq<seq<string>>, i: nat, x: string)
    requires i < |xss| && x in xss[i]
    ensures x in Flatten(xss)
  {
    if i > 0 {
      InFlatten(xss[1..], i - 1, x);
    }
  }

  /** The full placeholders of a document at path `at`, in document order, skipping
      ignored subtrees. */
  function Placeholders(v: Value, at: Path, ignore: seq<Pattern>): (r: seq<string>)
    ensures AllFull(r)
    decreases v
  {
    if Ignored(ignore, at) then []
    else match v
      case Str(s) => if IsFullPlaceholder(s) then [s] else []
      case Arr(items) =>
        Flatten(seq(|items|, i requires 0 <= i < |items| => Placeholders(items[i], at + [Index(i)], ignore)))
      case Hash(es) =>
        Flatten(seq(|es|, i requires 0 <= i < |es| => Placeholders(es[i].val, at + [Key(es[i].key)], ignore)))
      case _ => []
  }

  /** The document with each full placeholder that `sub` resolves replaced by its value,
      ignored subtrees left as they are. */
  function Rewrite(v: Value, at: Path, ignore: seq<Pattern>, sub: map<string, Value>): Value
    decreases v
  {
    if Ignored(ignore, at) then v
    else match v
      case Str(s) => if IsFullPlaceholder(s) && s in sub then sub[s] else v
      case Arr(items) =>
        Arr(seq(|items|, i requires 0 <= i < |items| => Rewrite(items[i], at + [Index(i)], ignore, sub)))
      case Hash(es) =>
        Hash(seq(|es|, i requires 0 <= i < |es| =>
          Entry(es[i].key, Rewrite(es[i].val, at + [Key(es[i].key)], ignore, sub))))
      case _ => v
  }

  /** What is collected: every full placeholder reachable at a path outside the ignored
      subtrees is among the placeholders. */
  lemma {:induction false} PlaceholdersComplete(v: Value, at: Path, ignore: seq<Pattern>, p: Path, s: string)
    requires At(v, p) == Some(Str(s)) && IsFullPlaceholder(s)
    requires !Ignored(ignore, at + p)
    ensures s in Placeholders(v, at, ignore)
    decreases |p|
  {
    if Ignored(ignore, at) {
      IgnoredBelow(ignore, at, p);
    }
    if p == [] {
      assert at + p == at;
    } else {
      assert (at + [p[0]]) + p[1..] == at + p;
      match p[0]
      case Index(n) =>
        var items := v.items;
        PlaceholdersComplete(items[n], at + [Index(n)], ignore, p[1..], s);
        var xss := seq(|items|, j requires 0 <= j < |items| => Placeholders(items[j], at + [Index(j)], ignore));
        InFlatten(xss, n, s);
      case Key(k) =>
        var es := v.entries;
        var i := LookupWitness(es, k);
        PlaceholdersComplete(es[i].val, at + [Key(k)], ignore, p[1..], s);
        var xss := seq(|es|, j requires 0 <= j < |es| => Placeholders(es[j].val, at + [Key(es[j].key)], ignore));
        InFlatten(xss, i, s);
    }
  }

  /** Whatever the concatenation holds, one of the sequences holds. */
  lemma {:induction false} FlattenIn(xss: seq<seq<string>>, x: string) returns (i: nat)
    requires x in Flatten(xss)
    ensures i < |xss| && x in xss[i]
  {
    if x in xss[0] {
      i := 0;
    } else {
      var j := FlattenIn(xss[1..], x);
      i := j + 1;
    }
  }

  /** What is collected is there: in a document whose hashes have each key once, every
      collected placeholder lies at a reachable path outside the ignored subtrees. */
  lemma {:induction false} PlaceholdersSound(v: Value, at: Path, ignore: seq<Pattern>, s: string) returns (p: Path)
    requires Document(v) && s in Placeholders(v, at, ignore)
    ensures At(v, p) == Some(Str(s)) && !Ignored(ignore, at + p)
    decreases v
  {
    match v
    case Str(_) =>
      p := [];
      assert at + p == at;
    case Arr(items) =>
      var xss := seq(|items|, j requires 0 <= j < |items| => Placeholders(items[j], at + [Index(j)], ignore));
      var i := FlattenIn(xss, s);
      var q := PlaceholdersSound(items[i], at + [Index(i)], ignore, s);
      p := [Index(i)] + q;
      assert p[1..] == q;
      assert at + p == (at + [Index(i)]) + q;
    case Hash(es) =>
      var xss := seq(|es|, j requires 0 <= j < |es| => Placeholders(es[j].val, at + [Key(es[j].key)], ignore));
      var i := FlattenIn(xss, s);
      var q := PlaceholdersSound(es[i].val, at + [Key(es[i].key)], ignore, s);
      LookupFirst(es, es[i].key, i);
      p := [Key(es[i].key)] + q;
      assert p[1..] == q;
      assert at + p == (at + [Key(es[i].key)]) + q;
    case _ =>
      assert false;
  }

  /** A full placeholder at a reachable path outside the ignored subtrees. */
  predicate PlaceholderAt(v: Value, ignore: seq<Pattern>, p: Path, s: string) {
    At(v, p) == Some(Str(s)) && IsFullPlaceholder(s) && !Ignored(ignore, p)
  }

  /** In a document, the collected placeholders are exactly the full placeholders at
      reachable paths outside the ignored subtrees. */
  lemma CollectedExactly(manifest: Value, ignore: seq<Pattern>)
    ensures Document(manifest) ==> forall s :: s in Placeholders(manifest, [], ignore) <==>
      exists p :: PlaceholderAt(manifest, ignore, p, s)
  {
    if Document(manifest) {
      forall s ensures s in Placeholders(manifest, [], ignore) <==> exists p :: PlaceholderAt(manifest, ignore, p, s) {
        if s in Placeholders(manifest, [], ignore) {
          var p := PlaceholdersSound(manifest, [], ignore, s);
          assert [] + p == p;
          assert PlaceholderAt(manifest, ignore, p, s);
        }
        if exists p :: PlaceholderAt(manifest, ignore, p, s) {
          var p :| PlaceholderAt(manifest, ignore, p, s);
          Collected(manifest, ignore, p, s);
        }
      }
    }
  }

  /** A placeholder that appears only inside ignored subtrees is not collected: it is
      neither fetched nor able to make interpolation fail. */
  lemma OnlyIgnoredNotCollected(manifest: Value, ignore: seq<Pattern>, s: string)
    requires Document(manifest)
    requires forall p :: At(manifest, p) == Some(Str(s)) ==> Ignored(ignore, p)
    ensures s !in Placeholders(manifest, [], ignore)
  {
    CollectedExactly(manifest, ignore);
  }

  /** Rewriting commutes with navigation: what the rewritten document holds at a path
      is the rewrite of what the original holds there. */
  lemma {:induction false} RewriteAt(v: Value, at: Path, ignore: seq<Pattern>, sub: map<string, Value>, p: Path)
    requires At(v, p).Some?
    ensures At(Rewrite(v, at, ignore, sub), p) == Some(Rewrite(At(v, p).value, at + p, ignore, sub))
    decreases |p|
  {
    if p == [] {
      assert at + p == at;
    } else if Ignored(ignore, at) {
      IgnoredBelow(ignore, at, p);
    } else {
      assert (at + [p[0]]) + p[1..] == at + p;
      match p[0]
      case Index(n) =>
        RewriteAt(v.items[n], at + [Index(n)], ignore, sub, p[1..]);
      case Key(k) =>
        var i := LookupWitness(v.entries, k);
        var es' := Rewrite(v, at, ignore, sub).entries;
        LookupFirst(es', k, i);
        RewriteAt(v.entries[i].val, at + [Key(k)], ignore, sub, p[1..]);
    }
  }

  /** A placeholder the substitution resolves, at a path that is not ignored, is
      replaced by its value. */
  lemma RewriteReplaces(v: Value, ignore: seq<Pattern>, sub: map<string, Value>, p: Path, s: string)
    requires At(v, p) == Some(Str(s)) && IsFullPlaceholder(s) && !Ignored(ignore, p) && s in sub
    ensures At(Rewrite(v, [], ignore, sub), p) == Some(sub[s])
  {
    RewriteAt(v, [], ignore, sub, p);
    assert [] + p == p;
  }

  /** Rewriting with nothing to substitute gives the document back. */
  lemma {:induction false} RewriteNothing(v: Value, at: Path, ignore: seq<Pattern>)
    ensures Rewrite(v, at, ignore, map[]) == v
    decreases v
  {
    if !Ignored(ignore, at) {
      match v
      case Arr(items) =>
        forall i | 0 <= i < |items| {
          RewriteNothing(items[i], at + [Index(i)], ignore);
        }
        assert Rewrite(v, at, ignore, map[]).items == items;
      case Hash(es) =>
        forall i | 0 <= i < |es| {
          RewriteNothing(es[i].val, at + [Key(es[i].key)], ignore);
        }
        assert Rewrite(v, at, ignore, map[]).entries == es;
      case _ =>
    }
  }

  /** Who interpolates: the director, the deployment that relative names live under,
      whether names must be absolute, and the config server's replies. */
  datatype Context = Context(director: string, deployment: string, mustBeAbsolute: bool, store: Store)

  datatype ResolveError = Syntax(syntax: NameError) | Fetch(fetch: FetchError)

  /** The reference a placeholder names. */
  function ReferenceOf(ctx: Context, placeholder: string): Result<Reference, NameError>
    requires IsFullPlaceholder(placeholder)
  {
    Parse(NameOf(placeholder), ctx.director, ctx.deployment, ctx.mustBeAbsolute)
  }

  /** The value one placeholder stands for: its first segment fetched under its full
      name, its other segments walked as keys into the fetched value. */
  function Resolve(ctx: Context, placeholder: string): (r: Result<Value, ResolveError>)
    requires IsFullPlaceholder(placeholder)
    ensures r.Failure? && r.error.Syntax? <==> ReferenceOf(ctx, placeholder).Failure?
    ensures r.Failure? && r.error.Syntax? ==> r.error.syntax == ReferenceOf(ctx, placeholder).error
  {
    match ReferenceOf(ctx, placeholder)
    case Failure(e) => Failure(Syntax(e))
    case Success(ref) =>
      match ValueOf(ref.root, Reply(ctx.store, ref.root))
      case Failure(e) => Failure(Fetch(e))
      case Success(v) =>
        match Walk(v, ref.root, ref.root, ref.keys)
        case Failure(e) => Failure(Fetch(e))
        case Success(w) => Success(w)
  }

  /** Dot syntax: a placeholder whose variable is fetched yields what its keys reach in
      the fetched value, and when a key is missing the error names the variable and the
      deepest parent path that exists. */
  lemma ResolveDotPath(ctx: Context, placeholder: string, ref: Reference, v: Value)
    requires IsFullPlaceholder(placeholder)
    requires ReferenceOf(ctx, placeholder) == Success(ref)
    requires ValueOf(ref.root, Reply(ctx.store, ref.root)) == Success(v)
    ensures Resolve(ctx, placeholder).Success? <==> At(v, KeyPath(ref.keys)).Some?
    ensures Resolve(ctx, placeholder).Success? ==>
      Resolve(ctx, placeholder).value == At(v, KeyPath(ref.keys)).value
    ensures Resolve(ctx, placeholder).Failure? ==>
      Resolve(ctx, placeholder).error.Fetch?
      && exists i :: MissingAt(v, ref.root, ref.root, ref.keys, Resolve(ctx, placeholder).error.fetch, i)
  {
    WalkFinds(v, ref.root, ref.root, ref.keys);
    if Walk(v, ref.root, ref.root, ref.keys).Failure? {
      WalkNamesDeepestParent(v, ref.root, ref.root, ref.keys);
    }
  }

  /** The name of each placeholder, parsed, in document order. */
  function References(ctx: Context, ps: seq<string>): (rs: seq<Result<Reference, NameError>>)
    requires AllFull(ps)
    ensures |rs| == |ps| && forall i :: 0 <= i < |ps| ==> rs[i] == ReferenceOf(ctx, ps[i])
  {
    seq(|ps|, i requires 0 <= i < |ps| => ReferenceOf(ctx, ps[i]))
  }

  /** Each placeholder resolved, in document order. */
  function Resolutions(ctx: Context, ps: seq<string>): (rs: seq<Result<Value, ResolveError>>)
    requires AllFull(ps)
    ensures |rs| == |ps| && forall i :: 0 <= i < |ps| ==> rs[i] == Resolve(ctx, ps[i])
  {
    seq(|ps|, i requires 0 <= i < |ps| => Resolve(ctx, ps[i]))
  }

  /** The error of the first failed result, if any. */
  function FirstFailure<T, E>(rs: seq<Result<T, E>>): (r: Option<E>)
    ensures r.None? <==> forall i :: 0 <= i < |rs| ==> rs[i].Success?
    ensures r.Some? ==> exists i :: 0 <= i < |rs| && rs[i] == Failure(r.value)
  {
    if rs == [] then None
    else if rs[0].Failure? then Some(rs[0].error)
    else
      var r := FirstFailure(rs[1..]);
      assert forall i :: 1 <= i < |rs| ==> rs[i] == rs[1..][i - 1];
      r
  }

  /** The fetch errors among the results, all of them, in order. */
  function FetchFailures(rs: seq<Result<Value, ResolveError>>): (r: seq<FetchError>)
    ensures forall e :: e in r ==> Failure(Fetch(e)) in rs
    ensures forall i :: 0 <= i < |rs| && rs[i].Failure? && rs[i].error.Fetch? ==> rs[i].error.fetch in r
  {
    if rs == [] then []
    else
      var rest := FetchFailures(rs[1..]);
      assert forall i :: 1 <= i < |rs| ==> rs[i] == rs[1..][i - 1];
      if rs[0].Failure? && rs[0].error.Fetch? then [rs[0].error.fetch] + rest else rest
  }

  /** The first name syntax error among the placeholders, in document order. */
  function FirstSyntaxError(ctx: Context, ps: seq<string>): (r: Option<NameError>)
    requires AllFull(ps)
    ensures r.None? <==> forall i :: 0 <= i < |ps| ==> ReferenceOf(ctx, ps[i]).Success?
    ensures r.Some? ==> exists i :: 0 <= i < |ps| && ReferenceOf(ctx, ps[i]) == Failure(r.value)
  {
    var rs := References(ctx, ps);
    var r := FirstFailure(rs);
    assert r.Some? ==> exists i :: 0 <= i < |rs| && rs[i] == Failure(r.value);
    r
  }

  /** The fetch errors of all the placeholders, collected rather than stopping at the first. */
  function FetchErrors(ctx: Context, ps: seq<string>): (r: seq<FetchError>)
    requires AllFull(ps)
    ensures forall e :: e in r ==> exists i :: 0 <= i < |ps| && Resolve(ctx, ps[i]) == Failure(Fetch(e))
    ensures forall i :: 0 <= i < |ps| && Resolve(ctx, ps[i]).Failure? && Resolve(ctx, ps[i]).error.Fetch? ==>
      Resolve(ctx, ps[i]).error.fetch in r
  {
    var rs := Resolutions(ctx, ps);
    var r := FetchFailures(rs);
    assert forall e :: e in r ==> exists i :: 0 <= i < |rs| && rs[i] == Failure(Fetch(e));
    r
  }

  /** The value of every placeholder that resolves. */
  function Resolved(ctx: Context, ps: seq<string>): (sub: map<string, Value>)
    ensures forall s :: s in sub <==> s in ps && IsFullPlaceholder(s) && Resolve(ctx, s).Success?
    ensures forall s :: s in sub ==> sub[s] == Resolve(ctx, s).value
  {
    map s | s in ps && IsFullPlaceholder(s) && Resolve(ctx, s).Success? :: Resolve(ctx, s).value
  }

  datatype InterpolationError =
    | IncorrectNameSyntax(syntax: NameError)
    | FetchFailed(errors: seq<FetchError>)

  /** `interpolate(manifest, deployment_name, subtrees_to_ignore:, must_be_absolute_name:)`. */
  function Interpolate(manifest: Value, ctx: Context, ignore: seq<Pattern>): (r: Result<Value, InterpolationError>)
    ensures r.Success? <==> forall s :: s in Placeholders(manifest, [], ignore) ==> Resolve(ctx, s).Success?
    ensures Document(manifest) ==>
      (r.Success? <==> forall p, s :: PlaceholderAt(manifest, ignore, p, s) ==> Resolve(ctx, s).Success?)
  {
    var ps := Placeholders(manifest, [], ignore);
    AllResolve(ctx, ps);
    CollectedExactly(manifest, ignore);
    match FirstSyntaxError(ctx, ps)
    case Some(e) => Failure(IncorrectNameSyntax(e))
    case None =>
      var errors := FetchErrors(ctx, ps);
      if errors != [] then Failure(FetchFailed(errors))
      else Success(Rewrite(manifest, [], ignore, Resolved(ctx, ps)))
  }

  /** After a successful interpolation, the placeholder at every reachable path outside
      the ignored subtrees is replaced by the value the config server holds for it:
      nil, '', integers and hashes alike. */
  lemma InterpolateReplaces(manifest: Value, ctx: Context, ignore: seq<Pattern>, p: Path, s: string)
    requires Interpolate(manifest, ctx, ignore).Success?
    requires At(manifest, p) == Some(Str(s)) && IsFullPlaceholder(s) && !Ignored(ignore, p)
    ensures Resolve(ctx, s).Success?
    ensures At(Interpolate(manifest, ctx, ignore).value, p) == Some(Resolve(ctx, s).value)
  {
    var ps := Placeholders(manifest, [], ignore);
    Collected(manifest, ignore, p, s);
    Succeeded(manifest, ctx, ignore);
    PlaceholderResolves(ctx, ps, s);
    RewriteReplaces(manifest, ignore, Resolved(ctx, ps), p, s);
  }

  /** Every reachable full placeholder outside the ignored subtrees is collected. */
  lemma Collected(manifest: Value, ignore: seq<Pattern>, p: Path, s: string)
    requires At(manifest, p) == Some(Str(s)) && IsFullPlaceholder(s) && !Ignored(ignore, p)
    ensures s in Placeholders(manifest, [], ignore)
  {
    assert [] + p == p;
    PlaceholdersComplete(manifest, [], ignore, p, s);
  }

  /** What a successful interpolation established: the syntax of every name is
      correct, nothing failed to fetch, and the result is the rewrite with the values
      of the placeholders. */
  lemma Succeeded(manifest: Value, ctx: Context, ignore: seq<Pattern>)
    requires Interpolate(manifest, ctx, ignore).Success?
    ensures var ps := Placeholders(manifest, [], ignore);
      FirstSyntaxError(ctx, ps).None? && FetchErrors(ctx, ps) == []
      && Interpolate(manifest, ctx, ignore).value == Rewrite(manifest, [], ignore, Resolved(ctx, ps))
  {
  }

  /** No name is refused and nothing fails to fetch exactly when every placeholder
      resolves. */
  lemma AllResolve(ctx: Context, ps: seq<string>)
    requires AllFull(ps)
    ensures FirstSyntaxError(ctx, ps).None? && FetchErrors(ctx, ps) == []
      <==> forall s :: s in ps ==> Resolve(ctx, s).Success?
  {
    if FirstSyntaxError(ctx, ps).Some? {
      RefusedUnresolved(ctx, ps);
    } else if FetchErrors(ctx, ps) != [] {
      FetchFailedUnresolved(ctx, ps);
    } else {
      forall s | s in ps ensures Resolve(ctx, s).Success? {
        PlaceholderResolves(ctx, ps, s);
      }
    }
  }

  lemma RefusedUnresolved(ctx: Context, ps: seq<string>)
    requires AllFull(ps) && FirstSyntaxError(ctx, ps).Some?
    ensures exists s :: s in ps && Resolve(ctx, s).Failure?
  {
    var i :| 0 <= i < |ps| && ReferenceOf(ctx, ps[i]) == Failure(FirstSyntaxError(ctx, ps).value);
    assert ps[i] in ps && Resolve(ctx, ps[i]).Failure?;
  }

  lemma FetchFailedUnresolved(ctx: Context, ps: seq<string>)
    requires AllFull(ps) && FetchErrors(ctx, ps) != []
    ensures exists s :: s in ps && Resolve(ctx, s).Failure?
  {
    var e := FetchErrors(ctx, ps)[0];
    var i :| 0 <= i < |ps| && Resolve(ctx, ps[i]) == Failure(Fetch(e));
    assert ps[i] in ps;
  }

  /** With no syntax error and no failed fetch, every placeholder resolves. */
  lemma PlaceholderResolves(ctx: Context, ps: seq<string>, s: string)
    requires AllFull(ps) && s in ps
    requires FirstSyntaxError(ctx, ps).None? && FetchErrors(ctx, ps) == []
    ensures Resolve(ctx, s).Success?
  {
    var i :| 0 <= i < |ps| && ps[i] == s;
    assert ReferenceOf(ctx, ps[i]).Success?;
  }

  /** Values under ignored subtrees come out as they went in. */
  lemma InterpolateKeepsIgnored(manifest: Value, ctx: Context, ignore: seq<Pattern>, p: Path)
    requires Interpolate(manifest, ctx, ignore).Success?
    requires At(manifest, p).Some? && Ignored(ignore, p)
    ensures At(Interpolate(manifest, ctx, ignore).value, p) == At(manifest, p)
  {
    assert [] + p == p;
    Succeeded(manifest, ctx, ignore);
    RewriteAt(manifest, [], ignore, Resolved(ctx, Placeholders(manifest, [], ignore)), p);
  }

  /** Scalars other than full placeholders come out as they went in. */
  lemma InterpolateKeepsPlainValues(manifest: Value, ctx: Context, ignore: seq<Pattern>, p: Path)
    requires Interpolate(manifest, ctx, ignore).Success?
    requires At(manifest, p).Some?
    requires var w := At(manifest, p).value;
      w.Null? || w.Bool? || w.Int? || (w.Str? && !IsFullPlaceholder(w.s))
    ensures At(Interpolate(manifest, ctx, ignore).value, p) == At(manifest, p)
  {
    Succeeded(manifest, ctx, ignore);
    RewriteAt(manifest, [], ignore, Resolved(ctx, Placeholders(manifest, [], ignore)), p);
  }

  /** A manifest without placeholders outside its ignored subtrees is returned as it is,
      without a single request to the config server. */
  lemma InterpolateWithoutPlaceholders(manifest: Value, ctx: Context, ignore: seq<Pattern>)
    requires Placeholders(manifest, [], ignore) == []
    ensures Interpolate(manifest, ctx, ignore) == Success(manifest)
  {
    assert Resolved(ctx, []) == map[];
    RewriteNothing(manifest, [], ignore);
  }

  /** A reachable placeholder whose name is malformed (or relative where names must be
      absolute) makes interpolation fail with a name syntax error. */
  lemma InterpolateRejectsBadNames(manifest: Value, ctx: Context, ignore: seq<Pattern>, p: Path, s: string)
    requires At(manifest, p) == Some(Str(s)) && IsFullPlaceholder(s) && !Ignored(ignore, p)
    requires ReferenceOf(ctx, s).Failure?
    ensures Interpolate(manifest, ctx, ignore).Failure?
    ensures Interpolate(manifest, ctx, ignore).error.IncorrectNameSyntax?
  {
    Collected(manifest, ignore, p, s);
  }

  /** With the names well formed, the fetch errors of all reachable placeholders are
      consolidated into one failure, and each reported error belongs to one of them. */
  lemma InterpolateCollectsFetchErrors(manifest: Value, ctx: Context, ignore: seq<Pattern>, p: Path, s: string)
    requires At(manifest, p) == Some(Str(s)) && IsFullPlaceholder(s) && !Ignored(ignore, p)
    requires FirstSyntaxError(ctx, Placeholders(manifest, [], ignore)).None?
    requires Resolve(ctx, s).Failure?
    ensures Resolve(ctx, s).error.Fetch?
    ensures Interpolate(manifest, ctx, ignore).Failure?
    ensures var err := Interpolate(manifest, ctx, ignore).error;
      err.FetchFailed? && Resolve(ctx, s).error.fetch in err.errors
      && forall e :: e in err.errors ==>
        exists q :: q in Placeholders(manifest, [], ignore) && Resolve(ctx, q) == Failure(Fetch(e))
  {
    var ps := Placeholders(manifest, [], ignore);
    Collected(manifest, ignore, p, s);
    var i :| 0 <= i < |ps| && ps[i] == s;
    assert ReferenceOf(ctx, ps[i]).Success?;
    var errors := FetchErrors(ctx, ps);
    assert Resolve(ctx, s).error.fetch in errors;
    assert Interpolate(manifest, ctx, ignore) == Failure(FetchFailed(errors));
    FetchErrorsFromPlaceholders(ctx, ps);
  }

  /** Each collected fetch error is the error of one of the placeholders. */
  lemma FetchErrorsFromPlaceholders(ctx: Context, ps: seq<string>)
    requires AllFull(ps)
    ensures forall e :: e in FetchErrors(ctx, ps) ==> exists q :: q in ps && Resolve(ctx, q) == Failure(Fetch(e))
  {
    forall e | e in FetchErrors(ctx, ps) ensures exists q :: q in ps && Resolve(ctx, q) == Failure(Fetch(e)) {
      var j :| 0 <= j < |ps| && Resolve(ctx, ps[j]) == Failure(Fetch(e));
      assert ps[j] in ps;
    }
  }

  /** The names interpolation asks the config server for: each placeholder's full
      variable name once. */
  function FetchNames(ctx: Context, ps: seq<string>): (names: seq<string>)
    requires AllFull(ps)
    ensures forall i, j :: 0 <= i < j < |names| ==> names[i] != names[j]
    decreases |ps|
  {
    if ps == [] then []
    else
      assert forall s :: s in ps[..|ps| - 1] ==> s in ps;
      var names := FetchNames(ctx, ps[..|ps| - 1]);
      var ref := ReferenceOf(ctx, ps[|ps| - 1]);
      if ref.Failure? || ref.value.root in names then names else names + [ref.value.root]
  }

  /** The names fetched are exactly the variables the well-formed placeholders name. */
  lemma {:induction false} FetchNamesNamed(ctx: Context, ps: seq<string>)
    requires AllFull(ps)
    ensures forall n :: n in FetchNames(ctx, ps) <==> NamedBy(ctx, ps, n)
    decreases |ps|
  {
    if ps != [] {
      NamedByLast(ctx, ps);
      FetchNamesNamed(ctx, ps[..|ps| - 1]);
    }
  }

  /** Some full placeholder at a reachable path outside the ignored subtrees is a
      well-formed reference to variable `n`. */
  ghost predicate NamedAt(ctx: Context, manifest: Value, ignore: seq<Pattern>, n: string) {
    exists p, s :: PlaceholderAt(manifest, ignore, p, s)
      && ReferenceOf(ctx, s).Success? && ReferenceOf(ctx, s).value.root == n
  }

  /** In a document, the names fetched are exactly the variables named by the
      placeholders outside the ignored subtrees: nothing inside them is ever fetched. */
  lemma FetchNamesReachable(ctx: Context, manifest: Value, ignore: seq<Pattern>)
    requires Document(manifest)
    ensures forall n :: n in FetchNames(ctx, Placeholders(manifest, [], ignore)) <==> NamedAt(ctx, manifest, ignore, n)
  {
    var ps := Placeholders(manifest, [], ignore);
    FetchNamesNamed(ctx, ps);
    CollectedExactly(manifest, ignore);
    forall n ensures NamedBy(ctx, ps, n) <==> NamedAt(ctx, manifest, ignore, n) {
      if NamedBy(ctx, ps, n) {
        var s :| s in ps && ReferenceOf(ctx, s).Success? && ReferenceOf(ctx, s).value.root == n;
        var p :| PlaceholderAt(manifest, ignore, p, s);
      }
      if NamedAt(ctx, manifest, ignore, n) {
        var p, s :| PlaceholderAt(manifest, ignore, p, s)
          && ReferenceOf(ctx, s).Success? && ReferenceOf(ctx, s).value.root == n;
        assert s in ps;
      }
    }
  }

  /** Some placeholder among `ps` is a well-formed reference to variable `n`. */
  ghost predicate NamedBy(ctx: Context, ps: seq<string>, n: string)
    requires AllFull(ps)
  {
    exists s :: s in ps && ReferenceOf(ctx, s).Success? && ReferenceOf(ctx, s).value.root == n
  }

  /** The variables named by the placeholders are those named by all but the last,
      and the last one's. */
  lemma NamedByLast(ctx: Context, ps: seq<string>)
    requires AllFull(ps) && ps != []
    ensures var front, last := ps[..|ps| - 1], ps[|ps| - 1];
      AllFull(front) && forall n :: NamedBy(ctx, ps, n) <==>
        NamedBy(ctx, front, n) || (ReferenceOf(ctx, last).Success? && ReferenceOf(ctx, last).value.root == n)
  {
    var front, last := ps[..|ps| - 1], ps[|ps| - 1];
    assert forall s :: s in ps <==> s in front || s == last;
    forall n ensures NamedBy(ctx, ps, n) ==>
      NamedBy(ctx, front, n) || (ReferenceOf(ctx, last).Success? && ReferenceOf(ctx, last).value.root == n)
    {
      if NamedBy(ctx, ps, n) {
        var s :| s in ps && ReferenceOf(ctx, s).Success? && ReferenceOf(ctx, s).value.root == n;
        if s != last { assert s in front; }
      }
    }
  }

  /** A placeholder whose fetched name gets the same reply resolves the same. */
  lemma FetchedSameValue(ctx: Context, store: Store, ps: seq<string>, s: string)
    requires AllFull(ps) && s in ps
    requires forall n :: n in FetchNames(ctx, ps) ==> Reply(ctx.store, n) == Reply(store, n)
    ensures Resolve(ctx, s) == Resolve(ctx.(store := store), s)
  {
    FetchNamesNamed(ctx, ps);
    if ReferenceOf(ctx, s).Success? {
      assert NamedBy(ctx, ps, ReferenceOf(ctx, s).value.root);
    }
    SameReplySameValue(ctx, ctx.(store := store), s);
  }

  /** Interpolation depends on the config server only through its replies for the
      names it fetches. */
  lemma SameRepliesSameInterpolation(manifest: Value, ctx: Context, store: Store, ignore: seq<Pattern>)
    requires forall n :: n in FetchNames(ctx, Placeholders(manifest, [], ignore)) ==>
      Reply(ctx.store, n) == Reply(store, n)
    ensures Interpolate(manifest, ctx, ignore) == Interpolate(manifest, ctx.(store := store), ignore)
  {
    var ps := Placeholders(manifest, [], ignore);
    var ctx' := ctx.(store := store);
    forall s | s in ps
      ensures Resolve(ctx, s) == Resolve(ctx', s)
    {
      FetchedSameValue(ctx, store, ps, s);
    }
    SameSyntaxErrors(ctx, ctx', ps);
    SameFetchErrors(ctx, ctx', ps);
    SameResolved(ctx, ctx', ps);
  }

  /** Placeholders that resolve alike give the same substitution. */
  lemma SameResolved(ctx: Context, ctx': Context, ps: seq<string>)
    requires AllFull(ps)
    requires forall s :: s in ps ==> Resolve(ctx, s) == Resolve(ctx', s)
    ensures Resolved(ctx, ps) == Resolved(ctx', ps)
  {
  }

  lemma SameReplySameValue(ctx: Context, ctx': Context, s: string)
    requires IsFullPlaceholder(s) && ctx' == ctx.(store := ctx'.store)
    requires ReferenceOf(ctx, s).Success? ==>
      Reply(ctx.store, ReferenceOf(ctx, s).value.root) == Reply(ctx'.store, ReferenceOf(ctx, s).value.root)
    ensures Resolve(ctx, s) == Resolve(ctx', s)
  {
    assert ReferenceOf(ctx, s) == ReferenceOf(ctx', s);
  }

  lemma SameSyntaxErrors(ctx: Context, ctx': Context, ps: seq<string>)
    requires AllFull(ps) && ctx' == ctx.(store := ctx'.store)
    ensures FirstSyntaxError(ctx, ps) == FirstSyntaxError(ctx', ps)
  {
    assert References(ctx, ps) == References(ctx', ps);
  }

  lemma SameFetchErrors(ctx: Context, ctx': Context, ps: seq<string>)
    requires AllFull(ps)
    requires forall s :: s in ps ==> Resolve(ctx, s) == Resolve(ctx', s)
    ensures FetchErrors(ctx, ps) == FetchErrors(ctx', ps)
  {
    assert Resolutions(ctx, ps) == Resolutions(ctx', ps);
  }

  /** The class wildcards of the ignored subtrees. */
  const IndexType: PatternStep := AnyIndex
  const AnyString: PatternStep := AnyKey

  /** The subtrees of a deployment manifest that are never interpolated: properties
      and env, which are interpolated later, when jobs are rendered. */
  const DeploymentIgnore: seq<Pattern> := [
    [Exact("properties")],
    [Exact("instance_groups"), IndexType, Exact("properties")],
    [Exact("instance_groups"), IndexType, Exact("jobs"), IndexType, Exact("properties")],
    [Exact("instance_groups"), IndexType, Exact("jobs"), IndexType, Exact("consumes"), AnyString, Exact("properties")],
    [Exact("jobs"), IndexType, Exact("properties")],
    [Exact("jobs"), IndexType, Exact("templates"), IndexType, Exact("properties")],
    [Exact("jobs"), IndexType, Exact("templates"), IndexType, Exact("consumes"), AnyString, Exact("properties")],
    [Exact("instance_groups"), IndexType, Exact("env")],
    [Exact("jobs"), IndexType, Exact("env")],
    [Exact("resource_pools"), IndexType, Exact("env")]
  ]

  /** The subtrees of a runtime config that are never interpolated. */
  const RuntimeIgnore: seq<Pattern> := [
    [Exact("addons"), IndexType, Exact("properties")],
    [Exact("addons"), IndexType, Exact("jobs"), IndexType, Exact("properties")],
    [Exact("addons"), IndexType, Exact("jobs"), IndexType, Exact("consumes"), AnyString, Exact("properties")]
  ]

  /** The deployment a manifest names; Ruby renders a missing name as the empty string. */
  function DeploymentName(manifest: Value): string {
    match Get(manifest, "name")
    case Some(Str(n)) => n
    case _ => ""
  }

  /** `interpolate_deployment_manifest`: relative names live under the manifest's own
      deployment. */
  function InterpolateDeploymentManifest(director: string, manifest: Value, store: Store)
    : (r: Result<Value, InterpolationError>)
    ensures r.Success? <==>
      forall s :: s in Placeholders(manifest, [], DeploymentIgnore) ==>
        Resolve(Context(director, DeploymentName(manifest), false, store), s).Success?
    ensures Document(manifest) ==> (r.Success? <==>
      forall p, s :: PlaceholderAt(manifest, DeploymentIgnore, p, s) ==>
        Resolve(Context(director, DeploymentName(manifest), false, store), s).Success?)
  {
    Interpolate(manifest, Context(director, DeploymentName(manifest), false, store), DeploymentIgnore)
  }

  /** `interpolate_runtime_manifest`: a runtime config belongs to no deployment, so every
      name must be absolute. */
  function InterpolateRuntimeManifest(director: string, manifest: Value, store: Store)
    : (r: Result<Value, InterpolationError>)
    ensures r.Success? <==>
      forall s :: s in Placeholders(manifest, [], RuntimeIgnore) ==> Resolve(Context(director, "", true, store), s).Success?
    ensures Document(manifest) ==> (r.Success? <==>
      forall p, s :: PlaceholderAt(manifest, RuntimeIgnore, p, s) ==> Resolve(Context(director, "", true, store), s).Success?)
  {
    Interpolate(manifest, Context(director, "", true, store), RuntimeIgnore)
  }

  /** A deployment's global properties and the properties of every job of every
      instance group come out of deployment-manifest interpolation untouched. */
  lemma DeploymentPropertiesUntouched(director: string, manifest: Value, store: Store, group: nat, job: nat)
    requires InterpolateDeploymentManifest(director, manifest, store).Success?
    ensures var r := InterpolateDeploymentManifest(director, manifest, store).value;
      var top := [Key("properties")];
      At(manifest, top).Some? ==> At(r, top) == At(manifest, top)
    ensures var r := InterpolateDeploymentManifest(director, manifest, store).value;
      var nested := [Key("instance_groups"), Index(group), Key("jobs"), Index(job), Key("properties")];
      At(manifest, nested).Some? ==> At(r, nested) == At(manifest, nested)
  {
    var ctx := Context(director, DeploymentName(manifest), false, store);
    var top := [Key("properties")];
    var nested := [Key("instance_groups"), Index(group), Key("jobs"), Index(job), Key("properties")];
    if At(manifest, top).Some? {
      assert Covers(DeploymentIgnore[0], top);
      InterpolateKeepsIgnored(manifest, ctx, DeploymentIgnore, top);
    }
    if At(manifest, nested).Some? {
      assert Covers(DeploymentIgnore[2], nested);
      InterpolateKeepsIgnored(manifest, ctx, DeploymentIgnore, nested);
    }
  }

  /** A runtime config interpolates only absolute names: after success, every reachable
      placeholder outside its ignored subtrees names an absolute variable, and a relative
      one makes it fail with a name syntax error. */
  lemma RuntimeNamesAreAbsolute(director: string, manifest: Value, store: Store, p: Path, s: string)
    requires At(manifest, p) == Some(Str(s)) && IsFullPlaceholder(s) && !Ignored(RuntimeIgnore, p)
    ensures InterpolateRuntimeManifest(director, manifest, store).Success? ==> IsAbsolute(NameOf(s))
    ensures !IsAbsolute(NameOf(s)) ==>
      InterpolateRuntimeManifest(director, manifest, store).Failure?
      && InterpolateRuntimeManifest(director, manifest, store).error.IncorrectNameSyntax?
  {
    var ctx := Context(director, "", true, store);
    if !IsAbsolute(NameOf(s)) {
      InterpolateRejectsBadNames(manifest, ctx, RuntimeIgnore, p, s);
    }
  }
}
