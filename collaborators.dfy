/**
 * The code the controller generator calls but that is not part of this model.
 * Each collaborator is an arbitrary total function; nothing is assumed about it.
 */
module Collaborators {
  import opened Wrappers
  import opened Syntax
  import opened Tsoa

  /** What a controller hands to the generator of each of its methods. */
  datatype MethodSeed = MethodSeed(
    commonResponses: seq<Response>,
    path: Option<string>,
    tags: Option<seq<Option<string>>>,
    security: seq<Security>,
    isHidden: bool)

  /** A method generator: the method declaration and the controller-level values it was given. */
  datatype MethodGen = MethodGen(member: Member, seed: MethodSeed)

  /**
   * decoratorValues: the evaluated arguments of a decorator;
   * securities: the security requirement a `Security` decorator denotes;
   * resolveType: the type resolver, which may fail;
   * headerType: the header-type helper for a type-argument list and an index, which may fail;
   * methodCtorError: the error the method generator's constructor throws, if any;
   * isValidMethod, generateMethod: the method generator's IsValid and Generate.
   */
  datatype Env = Env(
    decoratorValues: Decorator -> seq<Value>,
    securities: Decorator -> Security,
    resolveType: TypeNode -> Result<Schema, Error>,
    headerType: (seq<TypeNode>, nat) -> Result<Option<map<string, Schema>>, Error>,
    methodCtorError: MethodGen -> Option<Error>,
    isValidMethod: MethodGen -> bool,
    generateMethod: MethodGen -> Result<MethodIR, Error>)

  /** `new MethodGenerator(member, ...)`: the generator, or the error its constructor throws. */
  function NewMethodGenerator(member: Member, seed: MethodSeed, env: Env): (r: Result<MethodGen, Error>)
    ensures r.Ok? <==> env.methodCtorError(MethodGen(member, seed)).None?
    ensures r.Ok? ==> r.value.member == member && r.value.seed == seed
    ensures r.Err? ==> r.error == env.methodCtorError(MethodGen(member, seed)).value
  {
    var g := MethodGen(member, seed);
    match env.methodCtorError(g)
    case None => Ok(g)
    case Some(e) => Err(e)
  }
}
