/**
 * The decorator query the controller generator relies on: all decorators of a
 * declaration whose identifier has a given name, in declaration order.
 */
module DecoratorQuery {
  import opened Syntax

  /** Some decorator in `ds` is called `name`. */
  predicate HasDecorator(ds: seq<Decorator>, name: string) {
    exists i :: 0 <= i < |ds| && ds[i].name == name
  }

  /** The decorators of `ds` named `name`, in their original order. */
  function GetDecorators(ds: seq<Decorator>, name: string): (r: seq<Decorator>)
    ensures |r| <= |ds|
    ensures |r| == 0 <==> !HasDecorator(ds, name)
  {
    if ds == [] then []
    else (if ds[0].name == name then [ds[0]] else []) + GetDecorators(ds[1..], name)
  }

  /** The selection holds exactly the decorators named `name`. */
  lemma {:induction false} GetDecoratorsMembers(ds: seq<Decorator>, name: string)
    ensures forall d :: d in GetDecorators(ds, name) ==> d in ds && d.name == name
    ensures forall i :: 0 <= i < |ds| && ds[i].name == name ==> ds[i] in GetDecorators(ds, name)
  {
    if ds != [] {
      GetDecoratorsMembers(ds[1..], name);
      assert forall i :: 1 <= i < |ds| ==> ds[i] == ds[1..][i - 1];
    }
  }

  /** Selecting from `[d] + ds`: `d` if it has the name, then the selection from `ds`. */
  lemma GetDecoratorsCons(d: Decorator, ds: seq<Decorator>, name: string)
    ensures GetDecorators([d] + ds, name) == (if d.name == name then [d] else []) + GetDecorators(ds, name)
  {
    assert ([d] + ds)[0] == d && ([d] + ds)[1..] == ds;
  }

  /** Selecting distributes over concatenation, so the original order is kept. */
  lemma {:induction false} GetDecoratorsConcat(a: seq<Decorator>, b: seq<Decorator>, name: string)
    ensures GetDecorators(a + b, name) == GetDecorators(a, name) + GetDecorators(b, name)
  {
    if a == [] {
      assert a + b == b;
    } else {
      var head, rest := a[0], a[1..];
      var taken := if head.name == name then [head] else [];
      calc {
        GetDecorators(a + b, name);
        == { assert a + b == [head] + (rest + b); }
        GetDecorators([head] + (rest + b), name);
        == { GetDecoratorsCons(head, rest + b, name); }
        taken + GetDecorators(rest + b, name);
        == { GetDecoratorsConcat(rest, b, name); }
        taken + (GetDecorators(rest, name) + GetDecorators(b, name));
        (taken + GetDecorators(rest, name)) + GetDecorators(b, name);
        == { assert a == [head] + rest; GetDecoratorsCons(head, rest, name); }
        GetDecorators(a, name) + GetDecorators(b, name);
      }
    }
  }

  /** Decorators with other names do not affect the selection. */
  lemma {:induction false} GetDecoratorsIgnoresOthers(ds: seq<Decorator>, d: Decorator, name: string)
    requires d.name != name
    ensures GetDecorators(ds + [d], name) == GetDecorators(ds, name)
  {
    GetDecoratorsConcat(ds, [d], name);
    assert GetDecorators([d], name) == [] + GetDecorators([], name);
  }
}
