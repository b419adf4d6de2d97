/**
 * The controller generator: it is constructed from one class declaration,
 * runs the class-level checks in a fixed order (the first failing check
 * throws), and then reports whether the class is a controller and generates
 * its controller record.
 */
module ControllerGeneration {
  import opened Wrappers
  import opened Syntax
  import opened Tsoa
  import opened DecoratorQuery
  import opened Collaborators
  import opened ControllerProtocol
  import opened ClassDecorators
  import opened MethodBuilding

  /** The values the constructor assigns to the generator's fields. */
  datatype Fields = Fields(
    path: Option<string>,
    tags: Option<seq<Option<string>>>,
    security: seq<Security>,
    isHidden: bool,
    commonResponses: seq<Response>,
    newInstancePerRequest: bool,
    isControllerLike: bool)

  /** The initialiser of the `isControllerLike` field. */
  const InitialIsControllerLike := false

  /**
   * The constructor, as written: path, tags, security, hidden flag, common
   * responses and the instance-per-request flag, in this order, with the
   * instance-per-request check reading `isControllerLike` before it has been
   * assigned; the protocol check comes last.
   */
  function Construct(node: ClassDecl, env: Env): (r: Result<Fields, Error>)
    ensures r.Ok? ==> r.value.isControllerLike == IsControllerLike(node)
    ensures r.Ok? ==> (r.value.newInstancePerRequest <==> !HasDecorator(node.decorators, NoNewInstancePerRequestName))
  {
    ConstructWith(node, env, InitialIsControllerLike)
  }

  /**
   * The checks in the constructor's order, where `seenControllerLike` is the
   * value the instance-per-request check reads from `isControllerLike`.
   */
  function ConstructWith(node: ClassDecl, env: Env, seenControllerLike: bool): (r: Result<Fields, Error>)
    ensures r.Ok? ==> r.value.isControllerLike == IsControllerLike(node)
    ensures r.Ok? ==> (r.value.newInstancePerRequest <==> !HasDecorator(node.decorators, NoNewInstancePerRequestName))
    ensures r.Ok? && seenControllerLike ==> r.value.newInstancePerRequest
  {
    Assemble(GetPath(node), GetTags(node), GetSecurity(node, env), GetIsHidden(node), GetCommonResponses(node, env),
             GetNewInstancePerRequest(node, seenControllerLike), IsControllerLike(node))
  }

  /**
   * The outcome of the checks run in the order given: the first failing
   * check's error, or all the field values. The checks are pure, so looking
   * at every outcome and keeping the first error is the same as stopping at it.
   */
  function Assemble(
    path: Result<Option<string>, Error>,
    tags: Result<Option<seq<Option<string>>>, Error>,
    security: Result<seq<Security>, Error>,
    isHidden: Result<bool, Error>,
    commonResponses: Result<seq<Response>, Error>,
    newInstancePerRequest: Result<bool, Error>,
    isControllerLike: bool): Result<Fields, Error>
  {
    var path :- path;
    var tags :- tags;
    var security :- security;
    var isHidden :- isHidden;
    var commonResponses :- commonResponses;
    var newInstancePerRequest :- newInstancePerRequest;
    Ok(Fields(path, tags, security, isHidden, commonResponses, newInstancePerRequest, isControllerLike))
  }

  /** The decorator counts under which every class-level check passes. */
  predicate DecoratorsAccepted(node: ClassDecl) {
    var ds := node.decorators;
    && Count(node, "Route") <= 1
    && Count(node, "Tags") <= 1
    && !HasDecorator(ds, "NoSecurity")
    && Count(node, "Hidden") <= 1
    && Count(node, NewInstancePerRequestName) <= 1
    && Count(node, NoNewInstancePerRequestName) <= 1
    && !(HasDecorator(ds, NewInstancePerRequestName) && HasDecorator(ds, NoNewInstancePerRequestName))
  }

  /**
   * Construction succeeds exactly when the decorator counts are accepted and
   * every common response can be built; whether the class is controller-like
   * plays no part.
   */
  lemma ConstructSucceedsIff(node: ClassDecl, env: Env)
    ensures Construct(node, env).Ok? <==> DecoratorsAccepted(node) && GetCommonResponses(node, env).Ok?
  {
  }

  /** What the fields hold after a successful construction. */
  lemma ConstructedFields(node: ClassDecl, env: Env)
    requires Construct(node, env).Ok?
    ensures var f := Construct(node, env).value;
            var ds := node.decorators;
            && (f.path.Some? <==> HasDecorator(ds, "Route"))
            && (f.tags.None? <==> !HasDecorator(ds, "Tags"))
            && |f.security| == Count(node, "Security")
            && (f.isHidden <==> HasDecorator(ds, "Hidden"))
            && |f.commonResponses| == Count(node, "Response")
            && (f.newInstancePerRequest <==> !HasDecorator(ds, NoNewInstancePerRequestName))
            && (f.isControllerLike <==> IsControllerLike(node))
    ensures var f := Construct(node, env).value;
            && Ok(f.path) == GetPath(node)
            && Ok(f.tags) == GetTags(node)
            && Ok(f.security) == GetSecurity(node, env)
            && Ok(f.isHidden) == GetIsHidden(node)
            && Ok(f.commonResponses) == GetCommonResponses(node, env)
  {
    var f := Construct(node, env).value;
    var ds := node.decorators;
    CommonResponsesSpec(node, env);
  }

  /**
   * The structure of the first-error-wins order: a check's error is the
   * construction's error exactly when all earlier checks passed.
   */
  lemma FirstFailingCheckWins(node: ClassDecl, env: Env)
    ensures GetPath(node).Err? ==> Construct(node, env) == Err(OnlyOneError(node, "Route"))
    ensures GetPath(node).Ok? && GetTags(node).Err? ==> Construct(node, env) == Err(OnlyOneError(node, "Tags"))
    ensures GetPath(node).Ok? && GetTags(node).Ok? && HasDecorator(node.decorators, "NoSecurity") ==>
              Construct(node, env) == Err(ClassError(node, "NoSecurity decorator is unnecessary in '", "' class."))
    ensures GetPath(node).Ok? && GetTags(node).Ok? && GetSecurity(node, env).Ok? && GetIsHidden(node).Err? ==>
              Construct(node, env) == Err(OnlyOneError(node, "Hidden"))
    ensures GetPath(node).Ok? && GetTags(node).Ok? && GetSecurity(node, env).Ok? && GetIsHidden(node).Ok? &&
            GetCommonResponses(node, env).Err? ==>
              Construct(node, env) == Err(GetCommonResponses(node, env).error)
    ensures GetPath(node).Ok? && GetTags(node).Ok? && GetSecurity(node, env).Ok? && GetIsHidden(node).Ok? &&
            GetCommonResponses(node, env).Ok? && GetNewInstancePerRequest(node, InitialIsControllerLike).Err? ==>
              Construct(node, env) == Err(GetNewInstancePerRequest(node, InitialIsControllerLike).error)
  {
  }

  /**
   * Finding, as written: a class that declares getHeaders, getStatus and
   * setStatus and carries `NoNewInstancePerRequest` is accepted with a shared
   * instance, because the check at the instance-per-request step still sees
   * the initial `false`.
   */
  lemma ControllerLikeSharedInstanceAccepted(env: Env)
    ensures var node := SharedControllerLikeExample();
            && IsControllerLike(node)
            && Construct(node, env).Ok?
            && !Construct(node, env).value.newInstancePerRequest
            && Construct(node, env).value.isControllerLike
  {
    var node := SharedControllerLikeExample();
    ExampleIsControllerLike();
    ExampleDecorators(node);
    assert GetDecorators(node.decorators, "Response") == [];
  }

  /** `@Route() @NoNewInstancePerRequest() class C { getHeaders() {} getStatus() {} setStatus() {} }` */
  function SharedControllerLikeExample(): ClassDecl {
    ClassDecl(
      Some("C"), Some("c.ts"),
      [Decorator("Route", [], []), Decorator(NoNewInstancePerRequestName, [], [])],
      [MethodMember(Some("getHeaders"), 0), MethodMember(Some("getStatus"), 1), MethodMember(Some("setStatus"), 2)],
      NoExtends)
  }

  lemma ExampleIsControllerLike()
    ensures IsControllerLike(SharedControllerLikeExample())
  {
    var c := SharedControllerLikeExample();
    assert IsMethodNamed(c.members[0], "getHeaders");
    assert IsMethodNamed(c.members[1], "getStatus");
    assert IsMethodNamed(c.members[2], "setStatus");
    DeclaringProtocolSuffices(c);
  }

  lemma ExampleDecorators(node: ClassDecl)
    requires node == SharedControllerLikeExample()
    ensures Count(node, "Route") == 1 && Count(node, NoNewInstancePerRequestName) == 1
    ensures forall n :: n != "Route" && n != NoNewInstancePerRequestName ==> !HasDecorator(node.decorators, n)
  {
    var ds := node.decorators;
    assert ds[1..][1..] == [];
    assert GetDecorators(ds, "Route") == [ds[0]];
    assert GetDecorators(ds, NoNewInstancePerRequestName) == [ds[1]];
  }

  /** The corrected constructor: the protocol check runs before the instance-per-request check reads its result. */
  function ConstructCorrected(node: ClassDecl, env: Env): (r: Result<Fields, Error>)
    ensures r.Ok? && r.value.isControllerLike ==> r.value.newInstancePerRequest
  {
    ConstructWith(node, env, IsControllerLike(node))
  }

  /**
   * Corrected: a shared instance is granted exactly where the as-written
   * constructor grants one to a class that is not controller-like.
   */
  lemma CorrectedSharesExactlyNonControllerLike(node: ClassDecl, env: Env)
    ensures (ConstructCorrected(node, env).Ok? && !ConstructCorrected(node, env).value.newInstancePerRequest) <==>
            (Construct(node, env).Ok? && !Construct(node, env).value.newInstancePerRequest && !IsControllerLike(node))
  {
    if !IsControllerLike(node) {
      CorrectedAgreesOtherwise(node, env);
    }
  }

  /** Corrected: a lone `NoNewInstancePerRequest` on a controller-like class throws "should not extend Controller". */
  lemma CorrectedRejectsSharedControllerLike(node: ClassDecl, env: Env)
    requires IsControllerLike(node)
    requires Construct(node, env).Ok? && !Construct(node, env).value.newInstancePerRequest
    ensures ConstructCorrected(node, env) == Err(ShouldNotExtendControllerError(node))
  {
  }

  /** Corrected: on every class that is not controller-like both constructors agree. */
  lemma CorrectedAgreesOtherwise(node: ClassDecl, env: Env)
    requires !IsControllerLike(node)
    ensures ConstructCorrected(node, env) == Construct(node, env)
  {
  }

  const NoSourceFileMessage := "Controller node doesn't have a valid parent source file."
  const NoNameMessage := "Controller node doesn't have a valid name."

  class ControllerGenerator {
    const node: ClassDecl
    const current: Env
    var path: Option<string>
    var tags: Option<seq<Option<string>>>
    var security: seq<Security>
    var isHidden: bool
    var commonResponses: seq<Response>
    var newInstancePerRequest: bool
    var isControllerLike: bool

    /** The field values of the generator. */
    function State(): Fields
      reads this
    {
      Fields(path, tags, security, isHidden, commonResponses, newInstancePerRequest, isControllerLike)
    }

    /** The object before the constructor body runs: the parameter properties and the field initialisers. */
    constructor Init(node: ClassDecl, current: Env)
      ensures this.node == node && this.current == current
      ensures path.None? && tags.None? && security == [] && !isHidden && commonResponses == []
      ensures newInstancePerRequest && isControllerLike == InitialIsControllerLike
    {
      this.node := node;
      this.current := current;
      path := None;
      tags := None;
      security := [];
      isHidden := false;
      commonResponses := [];
      newInstancePerRequest := true;
      isControllerLike := InitialIsControllerLike;
    }

    /** Assigns every field at once. */
    method SetFields(f: Fields)
      modifies this
      ensures State() == f
    {
      path, tags, security, isHidden := f.path, f.tags, f.security, f.isHidden;
      commonResponses, newInstancePerRequest, isControllerLike := f.commonResponses, f.newInstancePerRequest, f.isControllerLike;
    }

    /**
     * `new ControllerGenerator(node, current)`: the object starts from its
     * initialisers; the checks run in order, the instance-per-request check
     * reading the `isControllerLike` field as it stands, and a throwing check
     * ends construction; otherwise the fields receive the checks' values and
     * `isControllerLike` the protocol check's result.
     */
    static method New(node: ClassDecl, current: Env) returns (r: Result<ControllerGenerator, Error>)
      ensures r.Err? ==> Construct(node, current) == Err(r.error)
      ensures r.Ok? ==> fresh(r.value) && r.value.node == node && r.value.current == current
      ensures r.Ok? ==> Construct(node, current) == Ok(r.value.State())
    {
      var g := new ControllerGenerator.Init(node, current);
      var checked :- ConstructWith(node, current, g.isControllerLike);
      var controllerLike := ExhibitsControllerProtocol(node);
      g.SetFields(checked.(isControllerLike := controllerLike));
      return Ok(g);
    }

    /** `IsValid`: the path is truthy or the empty string, i.e. it was set. */
    predicate IsValid()
      reads this
      ensures IsValid() <==> path.Some?
    {
      (path.Some? && path.value != "") || path == Some("")
    }

    /** The controller-level values handed to every method generator. */
    function Seed(): MethodSeed
      reads this
    {
      MethodSeed(commonResponses, path, tags, security, isHidden)
    }

    /** `Generate`. */
    function Generate(): (r: Result<Controller, Error>)
      reads this
      ensures node.sourceFile.None? ==> r == Err(GenerateMetadataError(NoSourceFileMessage))
      ensures node.sourceFile.Some? && node.name.None? ==> r == Err(GenerateMetadataError(NoNameMessage))
      ensures node.sourceFile.Some? && node.name.Some? ==>
                (r.Ok? <==> BuildMethods(node.members, Seed(), current).Ok?) &&
                (r.Err? ==> BuildMethods(node.members, Seed(), current) == Err(r.error))
      ensures r.Ok? ==>
                && r.value.location == node.sourceFile.value
                && r.value.name == node.name.value
                && Ok(r.value.methods) == BuildMethods(node.members, Seed(), current)
                && (IsValid() ==> Some(r.value.path) == path)
                && (!IsValid() ==> r.value.path == "")
                && r.value.newInstancePerRequest == newInstancePerRequest
                && r.value.extendsController == isControllerLike
    {
      if node.sourceFile.None? then Err(GenerateMetadataError(NoSourceFileMessage))
      else if node.name.None? then Err(GenerateMetadataError(NoNameMessage))
      else
        var methods :- BuildMethods(node.members, Seed(), current);
        Ok(Controller(
          node.sourceFile.value,
          methods,
          node.name.value,
          if path.Some? && path.value != "" then path.value else "",
          newInstancePerRequest,
          isControllerLike))
    }
  }

  /** A constructed generator is valid exactly when the class has a `Route` decorator. */
  lemma ValidIffRoute(g: ControllerGenerator)
    requires Construct(g.node, g.current).Ok? && g.State() == Construct(g.node, g.current).value
    ensures g.IsValid() <==> HasDecorator(g.node.decorators, "Route")
  {
    ConstructedFields(g.node, g.current);
  }

  /** The generated record's methods are those of the one-pass reading, seeded with the generator's own values. */
  lemma GeneratedMethods(g: ControllerGenerator)
    requires g.Generate().Ok?
    ensures Ok(g.Generate().value.methods) == MethodsInOnePass(g.node.members, MethodSeed(g.commonResponses, g.path, g.tags, g.security, g.isHidden), g.current)
  {
    BuildMethodsInOnePass(g.node.members, g.Seed(), g.current);
  }
}
