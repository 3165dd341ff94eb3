/**
 Query-parameter injectors (queryParamsFunc, withParam, withContinue, noOp)
 and the joining of parameters with a separator (strings.Join).
 */
module Query {

  /** A queryParamsFunc: either leaves the list alone or appends one `name=value`. */
  datatype Injector = NoOp | Param(name: string, value: string)

  function Apply(inj: Injector, params: seq<string>): seq<string>
  {
    match inj
    case NoOp => params
    case Param(name, value) => params + [name + "=" + value]
  }

  function WithParam(name: string, value: string): (inj: Injector)
    ensures forall ps :: Apply(inj, ps) == ps + [name + "=" + value]
  {
    Param(name, value)
  }

  /** An empty token adds nothing; any other token adds exactly `continue=<token>`. */
  function WithContinue(token: string): (inj: Injector)
    ensures forall ps :: Apply(inj, ps) == if token == "" then ps else ps + ["continue=" + token]
  {
    assert "continue" + "=" == "continue=";
    if |token| == 0 then NoOp else WithParam("continue", token)
  }

  /** Applies the injectors in order, each to the list the previous one produced. */
  function ApplyAll(injs: seq<Injector>, params: seq<string>): seq<string>
    decreases |injs|
  {
    if injs == [] then params else ApplyAll(injs[1..], Apply(injs[0], params))
  }

  /** The parameters a list of injectors contributes, in order. */
  function Added(injs: seq<Injector>): seq<string>
    decreases |injs|
  {
    if injs == [] then [] else Apply(injs[0], []) + Added(injs[1..])
  }

  /** Injectors only ever append: the original parameters stay first, in place. */
  lemma {:induction false} ApplyAllAppends(injs: seq<Injector>, params: seq<string>)
    ensures ApplyAll(injs, params) == params + Added(injs)
    decreases |injs|
  {
    if injs != [] {
      var next := Apply(injs[0], params);
      assert next == params + Apply(injs[0], []);
      ApplyAllAppends(injs[1..], next);
    }
  }

  /** strings.Join: the parts separated by `sep`. */
  function Join(parts: seq<string>, sep: string): string
    decreases |parts|
  {
    if parts == [] then ""
    else if |parts| == 1 then parts[0]
    else parts[0] + sep + Join(parts[1..], sep)
  }

  /** Every part preceded by the separator: what follows the first part of a join. */
  function Prefixed(parts: seq<string>, sep: string): string
    decreases |parts|
  {
    if parts == [] then "" else sep + parts[0] + Prefixed(parts[1..], sep)
  }

  lemma {:induction false} JoinCons(first: string, rest: seq<string>, sep: string)
    ensures Join([first] + rest, sep) == first + Prefixed(rest, sep)
    decreases |rest|
  {
    if rest != [] {
      assert ([first] + rest)[1..] == [rest[0]] + rest[1..];
      JoinCons(rest[0], rest[1..], sep);
    }
  }

  lemma {:induction false} AddedConcat(xs: seq<Injector>, ys: seq<Injector>)
    ensures Added(xs + ys) == Added(xs) + Added(ys)
    decreases |xs|
  {
    if xs != [] {
      assert (xs + ys)[1..] == xs[1..] + ys;
      AddedConcat(xs[1..], ys);
    } else {
      assert xs + ys == ys;
    }
  }

  lemma {:induction false} PrefixedConcat(xs: seq<string>, ys: seq<string>, sep: string)
    ensures Prefixed(xs + ys, sep) == Prefixed(xs, sep) + Prefixed(ys, sep)
    decreases |xs|
  {
    if xs != [] {
      assert (xs + ys)[1..] == xs[1..] + ys;
      PrefixedConcat(xs[1..], ys, sep);
    } else {
      assert xs + ys == ys;
    }
  }

  /** What withContinue contributes once joined: nothing, or `&continue=<token>`. */
  lemma ContinuePrefixed(token: string)
    ensures Prefixed(Added([WithContinue(token)]), "&") == if token == "" then "" else "&continue=" + token
  {
    var injs := [WithContinue(token)];
    assert Added(injs[1..]) == [];
    if token != "" {
      assert Added(injs) == ["continue=" + token];
    }
  }

  /** What withParam contributes once joined: `&name=value`. */
  lemma ParamPrefixed(name: string, value: string)
    ensures Prefixed(Added([WithParam(name, value)]), "&") == "&" + name + "=" + value
  {
    var injs := [WithParam(name, value)];
    assert Added(injs[1..]) == [];
    assert Added(injs) == [name + "=" + value];
  }
}
