/** The director's clients of the config server: `EnabledClient`, which resolves
    placeholders over HTTP, and `DisabledClient`, which leaves manifests alone. */
module ConfigServerClient {
  import opened Wrappers
  import opened Values
  import opened PlaceholderNames
  import opened ConfigFetch
  import opened Interpolation

  /** A request the director sends to the config server. */
  datatype Call = GetCall(name: string) | PostCall(request: Value)

  /** The body of a generation request: `{'name' => …, 'type' => …, 'parameters' => …}`. */
  function GenerationRequest(name: string, varType: string, parameters: Value): Value {
    Hash([Entry("name", Str(name)), Entry("type", Str(varType)), Entry("parameters", parameters)])
  }

  /** The reply to a generation request for a full name; generation succeeds unless the
      server has a refusal for that name. */
  function PostReply(posts: map<string, Response>, name: string): (r: Response)
    ensures name !in posts ==> r.code == 200
  {
    if name in posts then posts[name] else Response(200, "OK", Unparsable)
  }

  function GetCalls(names: seq<string>): (calls: seq<Call>)
    ensures |calls| == |names|
    ensures forall i :: 0 <= i < |names| ==> calls[i] == GetCall(names[i])
  {
    seq(|names|, i requires 0 <= i < |names| => GetCall(names[i]))
  }

  /** The config server's HTTP endpoint, recording every request sent to it in order. */
  class HttpClient {
    var calls: seq<Call>
    /** The reply to a GET of each full name. */
    const gets: Store
    /** The reply to a generation request, for the names whose generation fails. */
    const posts: map<string, Response>

    constructor(gets: Store, posts: map<string, Response>)
      ensures this.gets == gets && this.posts == posts && calls == []
    {
      this.gets := gets;
      this.posts := posts;
      calls := [];
    }

    method Get(name: string) returns (r: Response)
      modifies this`calls
      ensures calls == old(calls) + [GetCall(name)]
      ensures r == Reply(gets, name)
    {
      calls := calls + [GetCall(name)];
      r := Reply(gets, name);
    }

    method Post(name: string, varType: string, parameters: Value) returns (r: Response)
      modifies this`calls
      ensures calls == old(calls) + [PostCall(GenerationRequest(name, varType, parameters))]
      ensures r == PostReply(posts, name)
    {
      calls := calls + [PostCall(GenerationRequest(name, varType, parameters))];
      r := PostReply(posts, name);
    }

    /** GETs of the names in order, the replies kept by name. */
    method GetAll(names: seq<string>) returns (replies: Store)
      modifies this`calls
      ensures calls == old(calls) + GetCalls(names)
      ensures forall n :: n in names ==> Reply(replies, n) == Reply(gets, n)
    {
      replies := map[];
      for k := 0 to |names|
        invariant calls == old(calls) + GetCalls(names[..k])
        invariant forall n :: n in names[..k] ==> Reply(replies, n) == Reply(gets, n)
      {
        var reply := Get(names[k]);
        replies := replies[names[k] := reply];
        assert names[..k + 1] == names[..k] + [names[k]];
      }
      assert names[..|names|] == names;
    }
  }

  /** Errors the client raises: ConfigServerIncorrectNameSyntax, ConfigServerFetchError
      and ConfigServerGenerationError. */
  datatype ClientError =
    | NameSyntax(syntax: NameError)
    | FetchError(fetch: FetchError)
    | GenerationFailed(name: string, varType: string, message: string)

  function GenerationMessage(name: string, varType: string, message: string): (r: string)
    ensures var lead := "Config Server failed to generate value for '";
      |r| > |lead| + |name| + |message| && r[..|lead|] == lead && r[|lead|..|lead| + |name|] == name
      && r[|r| - |message| - 1..|r| - 1] == message
  {
    "Config Server failed to generate value for '" + name + "' with type '" + varType
      + "'. Error: '" + message + "'"
  }

  /** A property value that is exactly one full placeholder. */
  predicate IsPlaceholderValue(value: Value) {
    value.Str? && IsFullPlaceholder(value.s)
  }

  /** The parameters of a generated certificate: the first DNS name as common name,
      all of them as alternative names. */
  function CertificateParameters(dnsNames: seq<string>): Value {
    Hash([
      Entry("common_name", if |dnsNames| > 0 then Str(dnsNames[0]) else Null),
      Entry("alternative_names", Arr(Strings(dnsNames)))
    ])
  }

  /** Names as JSON strings. */
  function Strings(names: seq<string>): (vs: seq<Value>)
    ensures |vs| == |names| && forall i :: 0 <= i < |names| ==> vs[i] == Str(names[i])
  {
    seq(|names|, i requires 0 <= i < |names| => Str(names[i]))
  }

  /** The parameters of a value generated for a release property of the given type. */
  function PropertyParameters(varType: string, dnsNames: seq<string>): Value {
    if varType == "certificate" then CertificateParameters(dnsNames) else Hash([])
  }

  /** A certificate is generated for the property's DNS names: the first as common
      name, all of them as alternative names; other types get no parameters. */
  lemma CertificateNamesTheDnsRecords(varType: string, dnsNames: seq<string>)
    requires |dnsNames| > 0
    ensures varType == "certificate" ==>
      Get(PropertyParameters(varType, dnsNames), "common_name") == Some(Str(dnsNames[0]))
      && Get(PropertyParameters(varType, dnsNames), "alternative_names") == Some(Arr(Strings(dnsNames)))
    ensures varType != "certificate" ==> PropertyParameters(varType, dnsNames) == Hash([])
  {
    var es := CertificateParameters(dnsNames).entries;
    assert es[0].key != "alternative_names" by {
      assert "alternative_names"[0] != "common_name"[0];
    }
    assert es[1..] == [Entry("alternative_names", Arr(Strings(dnsNames)))];
    assert Lookup(es[1..], "alternative_names") == Some(Arr(Strings(dnsNames)));
    assert Lookup(es, "alternative_names") == Some(Arr(Strings(dnsNames)));
  }

  /** A variable declared in the deployment manifest's `variables` section. */
  datatype Variable = Variable(name: string, varType: string, options: Value)

  /** The parameters a variable is generated with: its options, `{}` when it has none. */
  function VariableParameters(v: Variable): Value {
    if v.options.Null? then Hash([]) else v.options
  }

  /** The generation requests for the variables, in declaration order, relative names
      under the deployment. */
  function GenerationCalls(director: string, deployment: string, vs: seq<Variable>): (calls: seq<Call>)
    ensures |calls| == |vs|
    ensures forall i :: 0 <= i < |vs| ==>
      calls[i] == PostCall(GenerationRequest(Namespaced(director, deployment, vs[i].name),
                                             vs[i].varType, VariableParameters(vs[i])))
  {
    seq(|vs|, i requires 0 <= i < |vs| =>
      PostCall(GenerationRequest(Namespaced(director, deployment, vs[i].name),
                                 vs[i].varType, VariableParameters(vs[i]))))
  }

  /** The variable has a well-formed name and the server generates it. */
  predicate Generates(director: string, deployment: string, posts: map<string, Response>, v: Variable) {
    ValidName(v.name) && PostReply(posts, Namespaced(director, deployment, v.name)).code == 200
  }

  /** `DisabledClient#interpolate`: the manifest as it is. */
  function DisabledInterpolate(manifest: Value): (r: Value)
    ensures r == manifest
  {
    manifest
  }

  /** `DisabledClient#prepare_and_get_property`: the value, or the default when it is nil. */
  function DisabledPropertyValue(value: Value, default: Value): (r: Value)
    ensures value.Null? ==> r == default
    ensures !value.Null? ==> r == value
  {
    if value.Null? then default else value
  }

  /** With no placeholder to resolve, the enabled client gives what the disabled one
      gives, and asks the config server nothing. */
  lemma EnabledAgreesWithDisabled(manifest: Value, ctx: Context, ignore: seq<Pattern>)
    requires Placeholders(manifest, [], ignore) == []
    ensures Interpolate(manifest, ctx, ignore) == Success(DisabledInterpolate(manifest))
    ensures FetchNames(ctx, Placeholders(manifest, [], ignore)) == []
  {
    InterpolateWithoutPlaceholders(manifest, ctx, ignore);
  }

  /** Every request is a GET of a variable that a placeholder outside the ignored
      subtrees names. */
  ghost predicate FetchesOnlyNamed(calls: seq<Call>, ctx: Context, manifest: Value, ignore: seq<Pattern>) {
    forall k :: 0 <= k < |calls| ==> calls[k].GetCall? && NamedAt(ctx, manifest, ignore, calls[k].name)
  }

  /** In a document, interpolation's GETs ask only for variables that placeholders
      outside the ignored subtrees name. */
  lemma FetchedCallsNamed(ctx: Context, manifest: Value, ignore: seq<Pattern>)
    ensures Document(manifest) ==>
      FetchesOnlyNamed(GetCalls(FetchNames(ctx, Placeholders(manifest, [], ignore))), ctx, manifest, ignore)
  {
    if Document(manifest) {
      FetchNamesReachable(ctx, manifest, ignore);
    }
  }

  class EnabledClient {
    const director: string
    const http: HttpClient

    constructor(http: HttpClient, director: string)
      ensures this.http == http && this.director == director
    {
      this.http := http;
      this.director := director;
    }

    /** `interpolate`: name syntax is checked before any request; then each variable is
        fetched once, and the manifest is interpolated with the replies. */
    method Interpolate(manifest: Value, deployment: string, ignore: seq<Pattern>, mustBeAbsolute: bool)
      returns (r: Result<Value, InterpolationError>)
      modifies http`calls
      ensures r == Interpolation.Interpolate(manifest, Context(director, deployment, mustBeAbsolute, http.gets), ignore)
      ensures var ctx := Context(director, deployment, mustBeAbsolute, http.gets);
        var ps := Placeholders(manifest, [], ignore);
        http.calls == old(http.calls)
          + (if FirstSyntaxError(ctx, ps).Some? then [] else GetCalls(FetchNames(ctx, ps)))
      ensures Document(manifest) ==> FetchesOnlyNamed(http.calls[|old(http.calls)|..],
        Context(director, deployment, mustBeAbsolute, http.gets), manifest, ignore)
    {
      var ctx := Context(director, deployment, mustBeAbsolute, http.gets);
      var ps := Placeholders(manifest, [], ignore);
      if FirstSyntaxError(ctx, ps).Some? {
        assert http.calls[|old(http.calls)|..] == [];
        return Interpolation.Interpolate(manifest, ctx, ignore);
      }
      var names := FetchNames(ctx, ps);
      var replies := http.GetAll(names);
      assert http.calls[|old(http.calls)|..] == GetCalls(names);
      FetchedCallsNamed(ctx, manifest, ignore);
      SameRepliesSameInterpolation(manifest, ctx, replies, ignore);
      r := Interpolation.Interpolate(manifest, ctx.(store := replies), ignore);
    }

    /** `interpolate_deployment_manifest` */
    method InterpolateDeploymentManifest(manifest: Value) returns (r: Result<Value, InterpolationError>)
      modifies http`calls
      ensures r == Interpolation.InterpolateDeploymentManifest(director, manifest, http.gets)
      ensures var ctx := Context(director, DeploymentName(manifest), false, http.gets);
        var ps := Placeholders(manifest, [], DeploymentIgnore);
        http.calls == old(http.calls)
          + (if FirstSyntaxError(ctx, ps).Some? then [] else GetCalls(FetchNames(ctx, ps)))
      ensures Document(manifest) ==> FetchesOnlyNamed(http.calls[|old(http.calls)|..],
        Context(director, DeploymentName(manifest), false, http.gets), manifest, DeploymentIgnore)
    {
      r := Interpolate(manifest, DeploymentName(manifest), DeploymentIgnore, false);
    }

    /** `interpolate_runtime_manifest` */
    method InterpolateRuntimeManifest(manifest: Value) returns (r: Result<Value, InterpolationError>)
      modifies http`calls
      ensures r == Interpolation.InterpolateRuntimeManifest(director, manifest, http.gets)
      ensures var ctx := Context(director, "", true, http.gets);
        var ps := Placeholders(manifest, [], RuntimeIgnore);
        http.calls == old(http.calls)
          + (if FirstSyntaxError(ctx, ps).Some? then [] else GetCalls(FetchNames(ctx, ps)))
      ensures Document(manifest) ==> FetchesOnlyNamed(http.calls[|old(http.calls)|..],
        Context(director, "", true, http.gets), manifest, RuntimeIgnore)
    {
      r := Interpolate(manifest, "", RuntimeIgnore, true);
    }

    /** `prepare_and_get_property(value, default, type, deployment_name, options)`:
        a release property's value, or the default when the value is nil. A full
        placeholder is checked against the config server: found, it is returned as it
        is; missing, the default is used when there is one, and otherwise a value is
        generated when the property has a type. */
    method PrepareAndGetProperty(value: Value, default: Value, varType: Option<string>,
                                 deployment: string, dnsNames: seq<string>)
      returns (r: Result<Value, ClientError>)
      modifies http`calls
      ensures !IsPlaceholderValue(value) ==>
        r == Success(DisabledPropertyValue(value, default)) && http.calls == old(http.calls)
      ensures IsPlaceholderValue(value) && Parse(NameOf(value.s), director, deployment, false).Failure? ==>
        r == Failure(NameSyntax(Parse(NameOf(value.s), director, deployment, false).error))
        && http.calls == old(http.calls)
      ensures IsPlaceholderValue(value) && Parse(NameOf(value.s), director, deployment, false).Success? ==>
        var root := Parse(NameOf(value.s), director, deployment, false).value.root;
        var code := Reply(http.gets, root).code;
        (code == 200 ==> r == Success(value) && http.calls == old(http.calls) + [GetCall(root)])
        && (code != 200 && code != 404 ==>
              r == Failure(FetchError(HttpError(root, code))) && http.calls == old(http.calls) + [GetCall(root)])
        && (code == 404 && !default.Null? ==> r == Success(default) && http.calls == old(http.calls) + [GetCall(root)])
        && (code == 404 && default.Null? && varType.None? ==>
              r == Success(value) && http.calls == old(http.calls) + [GetCall(root)])
        && (code == 404 && default.Null? && varType.Some? ==>
              var post := PostReply(http.posts, root);
              http.calls == old(http.calls) + [GetCall(root)]
                + [PostCall(GenerationRequest(root, varType.value, PropertyParameters(varType.value, dnsNames)))]
              && (post.code == 200 ==> r == Success(value))
              && (post.code != 200 ==> r == Failure(GenerationFailed(root, varType.value, post.message))))
    {
      if !IsPlaceholderValue(value) {
        return Success(DisabledPropertyValue(value, default));
      }
      var parsed := Parse(NameOf(value.s), director, deployment, false);
      if parsed.Failure? {
        return Failure(NameSyntax(parsed.error));
      }
      var root := parsed.value.root;
      var reply := http.Get(root);
      if reply.code == 200 {
        r := Success(value);
      } else if reply.code != 404 {
        r := Failure(FetchError(HttpError(root, reply.code)));
      } else if !default.Null? {
        r := Success(default);
      } else if varType.None? {
        r := Success(value);
      } else {
        var post := http.Post(root, varType.value, PropertyParameters(varType.value, dnsNames));
        if post.code == 200 {
          r := Success(value);
        } else {
          r := Failure(GenerationFailed(root, varType.value, post.message));
        }
      }
    }

    /** `generate_values(variables, deployment_name)`: one generation request per
        variable, in declaration order, stopping at the first malformed name or refused
        generation. */
    method GenerateValues(variables: seq<Variable>, deployment: string) returns (r: Result<(), ClientError>)
      modifies http`calls
      ensures r.Success? <==> forall i :: 0 <= i < |variables| ==> Generates(director, deployment, http.posts, variables[i])
      ensures r.Success? ==> http.calls == old(http.calls) + GenerationCalls(director, deployment, variables)
      ensures r.Failure? ==> exists k :: 0 <= k < |variables| && FailsAt(variables, deployment, k, r.error, old(http.calls))
    {
      for k := 0 to |variables|
        invariant forall i :: 0 <= i < k ==> Generates(director, deployment, http.posts, variables[i])
        invariant http.calls == old(http.calls) + GenerationCalls(director, deployment, variables[..k])
      {
        var v := variables[k];
        if !ValidName(v.name) {
          r := Failure(NameSyntax(InvalidName(v.name)));
          assert FailsAt(variables, deployment, k, r.error, old(http.calls));
          return;
        }
        var full := Namespaced(director, deployment, v.name);
        var reply := http.Post(full, v.varType, VariableParameters(v));
        assert variables[..k + 1] == variables[..k] + [v];
        if reply.code != 200 {
          r := Failure(GenerationFailed(full, v.varType, reply.message));
          assert FailsAt(variables, deployment, k, r.error, old(http.calls));
          return;
        }
      }
      assert variables[..|variables|] == variables;
      r := Success(());
    }

    /** Variable k is where generation stopped: all before it were generated; a malformed
        name raises before its request, a refused generation after it. */
    ghost predicate FailsAt(variables: seq<Variable>, deployment: string, k: int, e: ClientError, before: seq<Call>)
      reads this, http
    {
      0 <= k < |variables|
      && (forall i :: 0 <= i < k ==> Generates(director, deployment, http.posts, variables[i]))
      && var v := variables[k];
      var full := Namespaced(director, deployment, v.name);
      if !ValidName(v.name) then
        e == NameSyntax(InvalidName(v.name))
        && http.calls == before + GenerationCalls(director, deployment, variables[..k])
      else
        PostReply(http.posts, full).code != 200
        && e == GenerationFailed(full, v.varType, PostReply(http.posts, full).message)
        && http.calls == before + GenerationCalls(director, deployment, variables[..k + 1])
    }
  }
}
