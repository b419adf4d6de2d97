/**
 * Structural detection of "controller-like" classes: a class counts as one
 * when the identifier-named methods declared along its chain of class parents
 * include getHeaders, getStatus and setStatus. No nominal base-class check.
 */
module ControllerProtocol {
  import opened Wrappers
  import opened Syntax

  /** The method names a controller-like class must have. */
  const RequiredMethodNames: seq<string> := ["getHeaders", "getStatus", "setStatus"]

  /** The name a member contributes: one name for an identifier-named method, none otherwise. */
  function IdentifierMethodName(m: Member): seq<string> {
    if m.MethodMember? && m.identName.Some? then [m.identName.value] else []
  }

  /** The names a member list contributes, in member order (the reduce over `members`). */
  function OwnMethodNames(ms: seq<Member>): seq<string> {
    if ms == [] then [] else OwnMethodNames(ms[..|ms| - 1]) + IdentifierMethodName(ms[|ms| - 1])
  }

  /** The names collected from the class and, recursively, from its class parent. */
  function ChainMethodNames(c: ClassDecl): seq<string>
    decreases c
  {
    OwnMethodNames(c.members) +
    if c.heritage.ExtendsClass? then ChainMethodNames(c.heritage.base) else []
  }

  /** The class exhibits the controller protocol. */
  predicate IsControllerLike(c: ClassDecl) {
    forall k :: 0 <= k < |RequiredMethodNames| ==> RequiredMethodNames[k] in ChainMethodNames(c)
  }

  /** The member is a method declaration with identifier name `n`. */
  predicate IsMethodNamed(m: Member, n: string) {
    m.MethodMember? && m.identName == Some(n)
  }

  /** A method declared with identifier name `n`. */
  predicate DeclaresMethod(c: ClassDecl, n: string) {
    exists j :: 0 <= j < |c.members| && IsMethodNamed(c.members[j], n)
  }

  /** The class followed by its class parents, nearest first. */
  function Ancestors(c: ClassDecl): (r: seq<ClassDecl>)
    decreases c
    ensures |r| > 0 && r[0] == c
  {
    [c] + if c.heritage.ExtendsClass? then Ancestors(c.heritage.base) else []
  }

  /** `getMethodNamesRecursivelyFrom`: an accumulating loop over the members, then the parent. */
  method MethodNamesRecursivelyFrom(c: ClassDecl) returns (names: seq<string>)
    ensures names == ChainMethodNames(c)
    decreases c
  {
    names := [];
    var i := 0;
    while i < |c.members|
      invariant 0 <= i <= |c.members|
      invariant names == OwnMethodNames(c.members[..i])
    {
      var next := c.members[i];
      if next.MethodMember? && next.identName.Some? {
        names := names + [next.identName.value];
      }
      assert c.members[..i + 1][..i] == c.members[..i];
      i := i + 1;
    }
    assert c.members[..i] == c.members;
    match c.heritage {
      case ExtendsClass(base) =>
        var inherited := MethodNamesRecursivelyFrom(base);
        names := names + inherited;
      case _ =>
    }
  }

  /** `exhibitsControllerProtocol`: every required name must occur; the first missing one returns false. */
  method ExhibitsControllerProtocol(node: ClassDecl) returns (b: bool)
    ensures b == IsControllerLike(node)
  {
    var methodNames := MethodNamesRecursivelyFrom(node);
    for i := 0 to |RequiredMethodNames|
      invariant forall k :: 0 <= k < i ==> RequiredMethodNames[k] in methodNames
    {
      if RequiredMethodNames[i] !in methodNames {
        return false;
      }
    }
    return true;
  }

  lemma {:induction false} OwnMethodNamesConcat(a: seq<Member>, b: seq<Member>)
    ensures OwnMethodNames(a + b) == OwnMethodNames(a) + OwnMethodNames(b)
    decreases |b|
  {
    if b == [] {
      assert a + b == a;
    } else {
      var b' := b[..|b| - 1];
      assert (a + b)[..|a + b| - 1] == a + b';
      assert (a + b)[|a + b| - 1] == b[|b| - 1];
      OwnMethodNamesConcat(a, b');
    }
  }

  /** A name is collected from a member list iff some member is a method with that identifier name. */
  lemma {:induction false} OwnMethodNamesIff(ms: seq<Member>, n: string)
    ensures n in OwnMethodNames(ms) <==> exists j :: 0 <= j < |ms| && IsMethodNamed(ms[j], n)
    decreases |ms|
  {
    if ms != [] {
      var init := ms[..|ms| - 1];
      OwnMethodNamesIff(init, n);
      if n in OwnMethodNames(init) {
        var j :| 0 <= j < |init| && IsMethodNamed(init[j], n);
        assert ms[j] == init[j];
      }
      if exists j :: 0 <= j < |ms| && IsMethodNamed(ms[j], n) {
        var j :| 0 <= j < |ms| && IsMethodNamed(ms[j], n);
        if j < |init| {
          assert init[j] == ms[j];
        }
      }
    }
  }

  /** A name is collected iff the class or one of its class ancestors declares a method of that name. */
  lemma {:induction false} ChainMethodNamesIff(c: ClassDecl, n: string)
    ensures n in ChainMethodNames(c) <==> exists a :: a in Ancestors(c) && DeclaresMethod(a, n)
    decreases c
  {
    OwnMethodNamesIff(c.members, n);
    assert DeclaresMethod(c, n) <==> n in OwnMethodNames(c.members);
    if c.heritage.ExtendsClass? {
      var base := c.heritage.base;
      ChainMethodNamesIff(base, n);
      assert Ancestors(c) == [c] + Ancestors(base);
      if n in ChainMethodNames(base) {
        var a :| a in Ancestors(base) && DeclaresMethod(a, n);
        assert a in Ancestors(c);
      }
    } else {
      assert Ancestors(c) == [c];
      assert ChainMethodNames(c) == OwnMethodNames(c.members);
    }
  }

  /** Inserting a member anywhere in the class never removes a collected name. */
  lemma AddMemberKeepsNames(c: ClassDecl, k: nat, m: Member)
    requires k <= |c.members|
    ensures forall n :: n in ChainMethodNames(c) ==>
              n in ChainMethodNames(c.(members := c.members[..k] + [m] + c.members[k..]))
  {
    var ms := c.members;
    var c' := c.(members := ms[..k] + [m] + ms[k..]);
    assert ms == ms[..k] + ms[k..];
    OwnMethodNamesConcat(ms[..k], ms[k..]);
    OwnMethodNamesConcat(ms[..k], [m]);
    OwnMethodNamesConcat(ms[..k] + [m], ms[k..]);
  }

  /** Monotonicity: adding a method to a controller-like class keeps it controller-like. */
  lemma AddMemberKeepsControllerLike(c: ClassDecl, k: nat, m: Member)
    requires k <= |c.members|
    requires IsControllerLike(c)
    ensures IsControllerLike(c.(members := c.members[..k] + [m] + c.members[k..]))
  {
    AddMemberKeepsNames(c, k, m);
  }

  /** Monotonicity: giving a class that extends no class a class parent keeps it controller-like. */
  lemma AddParentKeepsControllerLike(c: ClassDecl, base: ClassDecl)
    requires !c.heritage.ExtendsClass?
    requires IsControllerLike(c)
    ensures IsControllerLike(c.(heritage := ExtendsClass(base)))
  {
    var c' := c.(heritage := ExtendsClass(base));
    assert ChainMethodNames(c') == ChainMethodNames(c) + ChainMethodNames(base);
  }

  /** A class whose own members declare the three methods is controller-like, whatever it extends. */
  lemma DeclaringProtocolSuffices(c: ClassDecl)
    requires forall k :: 0 <= k < |RequiredMethodNames| ==> DeclaresMethod(c, RequiredMethodNames[k])
    ensures IsControllerLike(c)
  {
    forall k | 0 <= k < |RequiredMethodNames|
      ensures RequiredMethodNames[k] in ChainMethodNames(c)
    {
      ChainMethodNamesIff(c, RequiredMethodNames[k]);
      assert c in Ancestors(c);
    }
  }
}
