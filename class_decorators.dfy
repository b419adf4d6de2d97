/**
 * The class-level decorator checks the controller generator runs while it is
 * constructed: path, tags, security, hidden flag, common responses and the
 * instance-per-request flag. Each either yields its field's value or throws.
 */
module ClassDecorators {
  import opened Wrappers
  import opened Syntax
  import opened Tsoa
  import opened DecoratorQuery
  import opened Collaborators
  import Pipelines

  /** An error whose message names the class; reading the name of an unnamed class is a TypeError. */
  function ClassError(node: ClassDecl, prefix: string, suffix: string): (e: Error)
    ensures node.name.Some? ==> e == GenerateMetadataError(prefix + node.name.value + suffix)
    ensures node.name.None? ==> e == NameTextTypeError
  {
    match node.name
    case Some(n) => GenerateMetadataError(prefix + n + suffix)
    case None => NameTextTypeError
  }

  /** "Only one X decorator allowed in '<class>' class." */
  function OnlyOneError(node: ClassDecl, decorator: string): Error {
    ClassError(node, "Only one " + decorator + " decorator allowed in '", "' class.")
  }

  const NewInstancePerRequestName := "NewInstancePerRequest"
  const NoNewInstancePerRequestName := "NoNewInstancePerRequest"

  /** "NewInstancePerRequest and NoNewInstancePerRequest are mutually exclusive in '<class>' class." */
  function MutuallyExclusiveError(node: ClassDecl): Error {
    ClassError(node, NewInstancePerRequestName + " and " + NoNewInstancePerRequestName + " are mutually exclusive in '", "' class.")
  }

  /** "NoNewInstancePerRequest decorated class '<class>' should not extend Controller" */
  function ShouldNotExtendControllerError(node: ClassDecl): Error {
    ClassError(node, NoNewInstancePerRequestName + " decorated class '", "' should not extend Controller")
  }

  /** Number of class decorators named `name`. */
  function Count(node: ClassDecl, name: string): nat {
    |GetDecorators(node.decorators, name)|
  }

  /** A template literal's rendering of an optional text: `undefined` when absent. */
  function TemplateText(t: Option<string>): string {
    match t
    case Some(s) => s
    case None => "undefined"
  }

  /** The path a `Route` decorator gives: its first argument's text, or `''` without arguments. */
  function RouteArgument(d: Decorator): string {
    if |d.args| == 0 then "" else TemplateText(d.args[0].text)
  }

  /** `getPath`. */
  function GetPath(node: ClassDecl): (r: Result<Option<string>, Error>)
    ensures r == Ok(None) <==> !HasDecorator(node.decorators, "Route")
    ensures r.Ok? && r.value.Some? <==> Count(node, "Route") == 1
    ensures r.Err? <==> Count(node, "Route") > 1
    ensures r.Err? ==> r.error == OnlyOneError(node, "Route")
  {
    var decorators := GetDecorators(node.decorators, "Route");
    if |decorators| == 0 then Ok(None)
    else if |decorators| > 1 then Err(OnlyOneError(node, "Route"))
    else Ok(Some(RouteArgument(decorators[0])))
  }

  /**
   * With a single `Route` decorator the path is that decorator's argument text;
   * it is `''` exactly when the argument is missing or is the empty literal.
   */
  lemma PathOfSingleRoute(node: ClassDecl)
    requires Count(node, "Route") == 1
    ensures exists i :: 0 <= i < |node.decorators| && node.decorators[i].name == "Route" &&
                        GetPath(node) == Ok(Some(RouteArgument(node.decorators[i])))
    ensures GetPath(node) == Ok(Some("")) <==>
              exists i :: 0 <= i < |node.decorators| && node.decorators[i].name == "Route" &&
                          (|node.decorators[i].args| == 0 || node.decorators[i].args[0].text == Some(""))
  {
    var ds := node.decorators;
    var routes := GetDecorators(ds, "Route");
    GetDecoratorsMembers(ds, "Route");
    assert routes[0] in routes;
    var i :| 0 <= i < |ds| && ds[i] == routes[0];
    if exists j :: 0 <= j < |ds| && ds[j].name == "Route" && (|ds[j].args| == 0 || ds[j].args[0].text == Some("")) {
      var j :| 0 <= j < |ds| && ds[j].name == "Route" && (|ds[j].args| == 0 || ds[j].args[0].text == Some(""));
      assert ds[j] in routes;
      assert ds[j] == routes[0];
    }
  }

  /** The texts of a decorator's arguments, in order. */
  function ArgumentTexts(args: seq<Arg>): (r: seq<Option<string>>)
    ensures |r| == |args| && forall i :: 0 <= i < |args| ==> r[i] == args[i].text
  {
    seq(|args|, i requires 0 <= i < |args| => args[i].text)
  }

  /** `getTags`. */
  function GetTags(node: ClassDecl): (r: Result<Option<seq<Option<string>>>, Error>)
    ensures r == Ok(None) <==> !HasDecorator(node.decorators, "Tags")
    ensures r.Ok? && r.value.Some? <==> Count(node, "Tags") == 1
    ensures r.Err? <==> Count(node, "Tags") > 1
    ensures r.Err? ==> r.error == OnlyOneError(node, "Tags")
  {
    var decorators := GetDecorators(node.decorators, "Tags");
    if |decorators| == 0 then Ok(None)
    else if |decorators| > 1 then Err(OnlyOneError(node, "Tags"))
    else Ok(Some(ArgumentTexts(decorators[0].args)))
  }

  /** With a single `Tags` decorator the tags are that decorator's argument texts, in order. */
  lemma TagsOfSingleTags(node: ClassDecl)
    requires Count(node, "Tags") == 1
    ensures exists i :: 0 <= i < |node.decorators| && node.decorators[i].name == "Tags" &&
                        GetTags(node) == Ok(Some(ArgumentTexts(node.decorators[i].args)))
  {
    var ds := node.decorators;
    GetDecoratorsMembers(ds, "Tags");
    var tags := GetDecorators(ds, "Tags");
    assert tags[0] in tags;
  }

  /** `getSecurity`: any `NoSecurity` decorator throws; otherwise one requirement per `Security` decorator. */
  function GetSecurity(node: ClassDecl, env: Env): (r: Result<seq<Security>, Error>)
    ensures r.Err? <==> HasDecorator(node.decorators, "NoSecurity")
    ensures r.Err? ==> r.error == ClassError(node, "NoSecurity decorator is unnecessary in '", "' class.")
    ensures r.Ok? ==> var s := GetDecorators(node.decorators, "Security");
                      |r.value| == |s| && forall i :: 0 <= i < |s| ==> r.value[i] == env.securities(s[i])
    ensures r.Ok? && !HasDecorator(node.decorators, "Security") ==> r.value == []
  {
    var noSecurityDecorators := GetDecorators(node.decorators, "NoSecurity");
    var securityDecorators := GetDecorators(node.decorators, "Security");
    if |noSecurityDecorators| > 0 then
      Err(ClassError(node, "NoSecurity decorator is unnecessary in '", "' class."))
    else
      Ok(seq(|securityDecorators|, i requires 0 <= i < |securityDecorators| => env.securities(securityDecorators[i])))
  }

  /** `getIsHidden`. */
  function GetIsHidden(node: ClassDecl): (r: Result<bool, Error>)
    ensures r.Ok? <==> Count(node, "Hidden") <= 1
    ensures r.Ok? ==> (r.value <==> HasDecorator(node.decorators, "Hidden"))
    ensures r.Err? ==> r.error == OnlyOneError(node, "Hidden")
  {
    var hiddenDecorators := GetDecorators(node.decorators, "Hidden");
    if |hiddenDecorators| == 0 then Ok(false)
    else if |hiddenDecorators| > 1 then Err(OnlyOneError(node, "Hidden"))
    else Ok(true)
  }

  /** Array destructuring: the `i`-th value, `undefined` past the end. */
  function ValueAt(values: seq<Value>, i: nat): Value {
    if i < |values| then values[i] else Undefined
  }

  const ResponseNameMessage := "Controller's responses should have an explicit name."

  /** The schema of a response: its first type argument resolved, if it has one. */
  function ResponseSchema(d: Decorator, env: Env): (r: Result<Option<Schema>, Error>)
    ensures |d.typeArgs| == 0 ==> r == Ok(None)
    ensures |d.typeArgs| > 0 ==> (r.Ok? <==> env.resolveType(d.typeArgs[0]).Ok?)
    ensures r.Ok? && |d.typeArgs| > 0 ==> r.value == Some(env.resolveType(d.typeArgs[0]).value)
    ensures r.Err? ==> |d.typeArgs| > 0 && r.error == env.resolveType(d.typeArgs[0]).error
  {
    if |d.typeArgs| > 0 then
      match env.resolveType(d.typeArgs[0])
      case Ok(schema) => Ok(Some(schema))
      case Err(e) => Err(e)
    else Ok(None)
  }

  /** The callback of `getCommonResponses` for one `Response` decorator. */
  function BuildResponse(d: Decorator, env: Env): (r: Result<Response, Error>)
    ensures var values := env.decoratorValues(d);
            !Truthy(ValueAt(values, 0)) ==> r == Err(GenerateMetadataError(ResponseNameMessage))
    ensures var values := env.decoratorValues(d);
            r.Ok? <==> Truthy(ValueAt(values, 0)) && ResponseSchema(d, env).Ok? && env.headerType(d.typeArgs, 1).Ok?
    ensures r.Ok? ==> var values := env.decoratorValues(d);
            && r.value.name == ValueAt(values, 0)
            && Truthy(r.value.name)
            && (Truthy(ValueAt(values, 1)) ==> r.value.description == ValueAt(values, 1))
            && (!Truthy(ValueAt(values, 1)) ==> r.value.description == Str(""))
            && (ValueAt(values, 2) == Undefined <==> r.value.examples.None?)
            && (r.value.examples.Some? ==> r.value.examples.value == [ValueAt(values, 2)])
            && Ok(r.value.schema) == ResponseSchema(d, env)
            && Ok(r.value.headers) == env.headerType(d.typeArgs, 1)
    ensures var values := env.decoratorValues(d);
            Truthy(ValueAt(values, 0)) && ResponseSchema(d, env).Err? ==> r == Err(ResponseSchema(d, env).error)
    ensures var values := env.decoratorValues(d);
            Truthy(ValueAt(values, 0)) && ResponseSchema(d, env).Ok? && env.headerType(d.typeArgs, 1).Err? ==>
              r == Err(env.headerType(d.typeArgs, 1).error)
  {
    var values := env.decoratorValues(d);
    var name := ValueAt(values, 0);
    var description := ValueAt(values, 1);
    var example := ValueAt(values, 2);
    if !Truthy(name) then Err(GenerateMetadataError(ResponseNameMessage))
    else
      var schema :- ResponseSchema(d, env);
      var headers :- env.headerType(d.typeArgs, 1);
      Ok(Response(
        name,
        if Truthy(description) then description else Str(""),
        if example == Undefined then None else Some([example]),
        schema,
        headers))
  }

  /** `getCommonResponses`: one response per `Response` decorator in order; the first error is thrown. */
  function GetCommonResponses(node: ClassDecl, env: Env): (r: Result<seq<Response>, Error>)
    ensures r.Ok? ==> |r.value| == Count(node, "Response")
    ensures Count(node, "Response") == 0 ==> r == Ok([])
  {
    Pipelines.MapResult(GetDecorators(node.decorators, "Response"), (d: Decorator) => BuildResponse(d, env))
  }

  /** What `getCommonResponses` yields, stated per decorator. */
  lemma CommonResponsesSpec(node: ClassDecl, env: Env)
    ensures GetCommonResponses(node, env).Ok? <==>
              forall d :: d in GetDecorators(node.decorators, "Response") ==> BuildResponse(d, env).Ok?
    ensures var rs := GetDecorators(node.decorators, "Response");
            var r := GetCommonResponses(node, env);
            r.Ok? ==> |r.value| == |rs| && forall i :: 0 <= i < |rs| ==> BuildResponse(rs[i], env) == Ok(r.value[i])
    ensures var rs := GetDecorators(node.decorators, "Response");
            var r := GetCommonResponses(node, env);
            r.Err? ==> exists i :: 0 <= i < |rs| && BuildResponse(rs[i], env) == Err(r.error) &&
                         forall j :: 0 <= j < i ==> BuildResponse(rs[j], env).Ok?
    ensures !HasDecorator(node.decorators, "Response") ==> GetCommonResponses(node, env) == Ok([])
  {
    var rs := GetDecorators(node.decorators, "Response");
    var f := (d: Decorator) => BuildResponse(d, env);
    assert forall i :: 0 <= i < |rs| ==> f(rs[i]) == BuildResponse(rs[i], env);
    assert GetCommonResponses(node, env) == Pipelines.MapResult(rs, f);
    Pipelines.MapResultOk(rs, f);
    assert (forall i :: 0 <= i < |rs| ==> f(rs[i]).Ok?) <==> (forall i :: 0 <= i < |rs| ==> BuildResponse(rs[i], env).Ok?);
    if Pipelines.MapResult(rs, f).Err? {
      Pipelines.MapResultFirstError(rs, f);
      var i :| 0 <= i < |rs| && f(rs[i]) == Err(Pipelines.MapResult(rs, f).error) &&
               forall j :: 0 <= j < i ==> f(rs[j]).Ok?;
      assert BuildResponse(rs[i], env) == Err(GetCommonResponses(node, env).error);
    }
    if !HasDecorator(node.decorators, "Response") {
      assert rs == [];
    }
    assert (forall i :: 0 <= i < |rs| ==> BuildResponse(rs[i], env).Ok?) <==> (forall d :: d in rs ==> BuildResponse(d, env).Ok?);
  }

  /** A `Response` decorator without a truthy name makes the whole list fail, unless an earlier one already did. */
  lemma UnnamedResponseFails(node: ClassDecl, env: Env, i: nat)
    requires var rs := GetDecorators(node.decorators, "Response");
             i < |rs| && !Truthy(ValueAt(env.decoratorValues(rs[i]), 0))
    ensures GetCommonResponses(node, env).Err?
    ensures (forall j :: 0 <= j < i ==> BuildResponse(GetDecorators(node.decorators, "Response")[j], env).Ok?) ==>
              GetCommonResponses(node, env) == Err(GenerateMetadataError(ResponseNameMessage))
  {
    CommonResponsesSpec(node, env);
    var rs := GetDecorators(node.decorators, "Response");
    var r := GetCommonResponses(node, env);
    assert BuildResponse(rs[i], env).Err?;
    if forall j :: 0 <= j < i ==> BuildResponse(rs[j], env).Ok? {
      var k :| 0 <= k < |rs| && BuildResponse(rs[k], env) == Err(r.error) &&
               forall j :: 0 <= j < k ==> BuildResponse(rs[j], env).Ok?;
      assert k == i;
    }
  }

  /** `getNewInstancePerRequest`, given the value `this.isControllerLike` holds when it runs. */
  function GetNewInstancePerRequest(node: ClassDecl, isControllerLike: bool): (r: Result<bool, Error>)
    ensures r.Ok? <==>
              && Count(node, NewInstancePerRequestName) <= 1
              && Count(node, NoNewInstancePerRequestName) <= 1
              && !(HasDecorator(node.decorators, NewInstancePerRequestName) && HasDecorator(node.decorators, NoNewInstancePerRequestName))
              && !(HasDecorator(node.decorators, NoNewInstancePerRequestName) && isControllerLike)
    ensures r.Ok? ==> (r.value <==> !HasDecorator(node.decorators, NoNewInstancePerRequestName))
    ensures Count(node, NewInstancePerRequestName) > 1 ==>
              r == Err(OnlyOneError(node, NewInstancePerRequestName))
    ensures Count(node, NewInstancePerRequestName) <= 1 && Count(node, NoNewInstancePerRequestName) > 1 ==>
              r == Err(OnlyOneError(node, NoNewInstancePerRequestName))
    ensures Count(node, NewInstancePerRequestName) == 1 && Count(node, NoNewInstancePerRequestName) == 1 ==>
              r == Err(MutuallyExclusiveError(node))
  {
    var newInstancePerRequest := GetDecorators(node.decorators, NewInstancePerRequestName);
    var noNewInstancePerRequest := GetDecorators(node.decorators, NoNewInstancePerRequestName);
    if |newInstancePerRequest| > 1 then
      Err(OnlyOneError(node, NewInstancePerRequestName))
    else if |noNewInstancePerRequest| > 1 then
      Err(OnlyOneError(node, NoNewInstancePerRequestName))
    else
      var nipr := |newInstancePerRequest| == 1;
      var nnipr := |noNewInstancePerRequest| == 1;
      if nipr && nnipr then
        Err(MutuallyExclusiveError(node))
      else if !nipr && !nnipr then
        Ok(true)
      else if !nipr && isControllerLike then
        Err(ShouldNotExtendControllerError(node))
      else
        Ok(nipr)
  }

  /** For a named class, the "should not extend Controller" error is thrown exactly when a lone `NoNewInstancePerRequest` meets a controller-like class. */
  lemma ShouldNotExtendControllerIff(node: ClassDecl, isControllerLike: bool)
    requires node.name.Some?
    ensures GetNewInstancePerRequest(node, isControllerLike) ==
              Err(ShouldNotExtendControllerError(node)) <==>
            && Count(node, NoNewInstancePerRequestName) == 1
            && Count(node, NewInstancePerRequestName) == 0
            && isControllerLike
  {
    var n := node.name.value;
    var sne := NoNewInstancePerRequestName + " decorated class '";
    var one := "Only one " + NewInstancePerRequestName + " decorator allowed in '";
    var none := "Only one " + NoNewInstancePerRequestName + " decorator allowed in '";
    var both := NewInstancePerRequestName + " and " + NoNewInstancePerRequestName + " are mutually exclusive in '";
    assert sne[0] == 'N' && sne[1] == 'o' && one[0] == 'O' && none[0] == 'O' && both[1] == 'e';
    MessagesDiffer(sne, one, n, "' should not extend Controller", "' class.", 0);
    MessagesDiffer(sne, none, n, "' should not extend Controller", "' class.", 0);
    MessagesDiffer(sne, both, n, "' should not extend Controller", "' class.", 1);
  }

  /** Two messages built around the same class name differ when their prefixes differ at some position `k`. */
  lemma MessagesDiffer(p1: string, p2: string, n: string, s1: string, s2: string, k: nat)
    requires k < |p1| && k < |p2| && p1[k] != p2[k]
    ensures p1 + n + s1 != p2 + n + s2
  {
    assert (p1 + n + s1)[k] == p1[k];
    assert (p2 + n + s2)[k] == p2[k];
  }
}
