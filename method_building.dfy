/**
 * `buildMethods`: keep the method declarations among the class members, make
 * a method generator for each (seeded with the controller-level values), keep
 * the valid generators and generate each one, in declaration order.
 */
module MethodBuilding {
  import opened Wrappers
  import opened Syntax
  import opened Tsoa
  import opened Collaborators
  import opened Pipelines

  /** `m.kind === ts.SyntaxKind.MethodDeclaration`. */
  predicate IsMethodDeclaration(m: Member) {
    m.MethodMember?
  }

  /** The generators of the method declarations, or the first error a generator constructor throws. */
  function MethodGenerators(members: seq<Member>, seed: MethodSeed, env: Env): Result<seq<MethodGen>, Error> {
    MapResult(Filter(members, IsMethodDeclaration), (m: Member) => NewMethodGenerator(m, seed, env))
  }

  /** The records of the valid generators, or the first error a `Generate` call throws. */
  function GenerateValid(generators: seq<MethodGen>, env: Env): Result<seq<MethodIR>, Error> {
    MapResult(Filter(generators, env.isValidMethod), env.generateMethod)
  }

  /** The four stages as the source chains them: every constructor runs before any `Generate`. */
  function BuildMethods(members: seq<Member>, seed: MethodSeed, env: Env): (r: Result<seq<MethodIR>, Error>)
    ensures r.Ok? ==> |r.value| <= |Filter(members, IsMethodDeclaration)|
  {
    var generators :- MethodGenerators(members, seed, env);
    GenerateValid(generators, env)
  }

  /**
   * The reference reading: one pass over the members, where each method
   * declaration gets a generator seeded with `seed` and, when that generator
   * is valid, contributes its record at its own position.
   */
  function MethodsInOnePass(members: seq<Member>, seed: MethodSeed, env: Env): Result<seq<MethodIR>, Error> {
    if members == [] then Ok([])
    else
      var rest := MethodsInOnePass(members[1..], seed, env);
      if !IsMethodDeclaration(members[0]) then rest
      else
        match NewMethodGenerator(members[0], seed, env)
        case Err(e) => Err(e)
        case Ok(g) =>
          if !env.isValidMethod(g) then rest
          else
            match env.generateMethod(g)
            case Err(e) => Err(e)
            case Ok(ir) =>
              match rest
              case Err(e) => Err(e)
              case Ok(irs) => Ok([ir] + irs)
  }

  /** The generators of `[m] + rest`: `m`'s generator, when it is a method declaration, ahead of the rest's. */
  lemma MethodGeneratorsCons(m: Member, rest: seq<Member>, seed: MethodSeed, env: Env)
    ensures MethodGenerators([m] + rest, seed, env) ==
            if !IsMethodDeclaration(m) then MethodGenerators(rest, seed, env)
            else
              match NewMethodGenerator(m, seed, env)
              case Err(e) => Err(e)
              case Ok(g) =>
                match MethodGenerators(rest, seed, env)
                case Err(e) => Err(e)
                case Ok(gs) => Ok([g] + gs)
  {
    var ng := (x: Member) => NewMethodGenerator(x, seed, env);
    var decls := Filter(rest, IsMethodDeclaration);
    FilterConcat([m], rest, IsMethodDeclaration);
    assert [m][1..] == [];
    if IsMethodDeclaration(m) {
      assert Filter([m], IsMethodDeclaration) == [m];
      assert Filter([m] + rest, IsMethodDeclaration) == [m] + decls;
      assert ([m] + decls)[0] == m && ([m] + decls)[1..] == decls;
      assert MethodGenerators([m] + rest, seed, env) == MapResult([m] + decls, ng);
    } else {
      assert Filter([m], IsMethodDeclaration) == [];
      assert Filter([m] + rest, IsMethodDeclaration) == decls;
    }
  }

  /** The records of `[g] + gs`: `g`'s record, when it is valid, ahead of the rest's. */
  lemma GenerateValidCons(g: MethodGen, gs: seq<MethodGen>, env: Env)
    ensures GenerateValid([g] + gs, env) ==
            if !env.isValidMethod(g) then GenerateValid(gs, env)
            else
              match env.generateMethod(g)
              case Err(e) => Err(e)
              case Ok(ir) =>
                match GenerateValid(gs, env)
                case Err(e) => Err(e)
                case Ok(irs) => Ok([ir] + irs)
  {
    var valid := Filter(gs, env.isValidMethod);
    FilterConcat([g], gs, env.isValidMethod);
    assert [g][1..] == [];
    if env.isValidMethod(g) {
      assert Filter([g], env.isValidMethod) == [g];
      assert Filter([g] + gs, env.isValidMethod) == [g] + valid;
      assert ([g] + valid)[0] == g && ([g] + valid)[1..] == valid;
    } else {
      assert Filter([g], env.isValidMethod) == [];
      assert Filter([g] + gs, env.isValidMethod) == valid;
    }
  }

  /**
   * The staged pipeline succeeds exactly when the one-pass reading does, and
   * then yields the same records: the valid method declarations, in order.
   */
  lemma {:induction false} BuildMethodsInOnePass(members: seq<Member>, seed: MethodSeed, env: Env)
    ensures BuildMethods(members, seed, env).Ok? <==> MethodsInOnePass(members, seed, env).Ok?
    ensures BuildMethods(members, seed, env).Ok? ==>
              BuildMethods(members, seed, env) == MethodsInOnePass(members, seed, env)
  {
    if members != [] {
      var m, rest := members[0], members[1..];
      BuildMethodsInOnePass(rest, seed, env);
      assert members == [m] + rest;
      MethodGeneratorsCons(m, rest, seed, env);
      if IsMethodDeclaration(m) {
        match NewMethodGenerator(m, seed, env)
        case Err(e) =>
        case Ok(g) =>
          match MethodGenerators(rest, seed, env)
          case Err(e) =>
          case Ok(gs) =>
            GenerateValidCons(g, gs, env);
      }
    }
  }

  /**
   * Because every constructor runs before any `Generate`, a later method whose
   * generator cannot be constructed wins over an earlier method whose
   * `Generate` throws; the one-pass reading would report the earlier error.
   */
  lemma ConstructorErrorsComeFirst(seed: MethodSeed, env: Env, first: string, second: string, e1: Error, e2: Error)
    requires var g1 := MethodGen(MethodMember(Some(first), 0), seed);
             env.methodCtorError(g1).None? && env.isValidMethod(g1) && env.generateMethod(g1) == Err(e1)
    requires env.methodCtorError(MethodGen(MethodMember(Some(second), 1), seed)) == Some(e2)
    ensures BuildMethods([MethodMember(Some(first), 0), MethodMember(Some(second), 1)], seed, env) == Err(e2)
    ensures MethodsInOnePass([MethodMember(Some(first), 0), MethodMember(Some(second), 1)], seed, env) == Err(e1)
  {
    var ms := [MethodMember(Some(first), 0), MethodMember(Some(second), 1)];
    assert ms[1..] == [MethodMember(Some(second), 1)];
    assert ms[1..][1..] == [];
    assert Filter(ms, IsMethodDeclaration) == ms;
    assert MapResult([MethodMember(Some(second), 1)], (m: Member) => NewMethodGenerator(m, seed, env)) == Err(e2);
  }

  /**
   * An overload signature and its implementation are two method declarations
   * with one name; when only the implementation's generator is valid, the
   * build holds exactly the implementation's record.
   */
  lemma OverloadSignatureSkipped(seed: MethodSeed, env: Env, name: string, signature: nat, implementation: nat, ir: MethodIR)
    requires signature != implementation
    requires var s := MethodGen(MethodMember(Some(name), signature), seed);
             env.methodCtorError(s).None? && !env.isValidMethod(s)
    requires var m := MethodGen(MethodMember(Some(name), implementation), seed);
             env.methodCtorError(m).None? && env.isValidMethod(m) && env.generateMethod(m) == Ok(ir)
    ensures BuildMethods([MethodMember(Some(name), signature), MethodMember(Some(name), implementation)], seed, env) == Ok([ir])
  {
    var sig, impl := MethodMember(Some(name), signature), MethodMember(Some(name), implementation);
    var gs, gi := MethodGen(sig, seed), MethodGen(impl, seed);
    assert MethodGenerators([], seed, env) == Ok([]);
    assert GenerateValid([], env) == Ok([]);
    assert NewMethodGenerator(impl, seed, env) == Ok(gi);
    assert NewMethodGenerator(sig, seed, env) == Ok(gs);
    MethodGeneratorsCons(impl, [], seed, env);
    assert [impl] + [] == [impl];
    assert MethodGenerators([impl], seed, env) == Ok([gi] + []);
    assert [gi] + [] == [gi];
    MethodGeneratorsCons(sig, [impl], seed, env);
    assert [sig] + [impl] == [sig, impl] && [gs] + [gi] == [gs, gi];
    assert MethodGenerators([sig] + [impl], seed, env) == Ok([gs] + [gi]);
    GenerateValidCons(gi, [], env);
    assert [gi] + [] == [gi] && [ir] + [] == [ir];
    assert GenerateValid([gi], env) == Ok([ir]);
    GenerateValidCons(gs, [gi], env);
    assert [gs] + [gi] == [gs, gi];
    assert GenerateValid([gs, gi], env) == Ok([ir]);
  }
}
