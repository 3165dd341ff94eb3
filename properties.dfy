/**
 GetProperties: an existence probe on the name, then the continuation-token
 loop over property pages, keeping only properties of kind "String" in a
 name -> data map where a later property overwrites an earlier one.
 */
module Properties {
  import opened Wrappers
  import opened Model
  import opened Query
  import opened ServiceFabric
  import opened Pagination

  /** The (false, nil, nil) and (true, properties, nil) results of GetProperties. */
  datatype Lookup = Absent | Found(properties: map<string, string>)

  predicate IsString(p: Property)
  {
    p.value.kind == "String"
  }

  /** Inserts the String-kind properties of `ps` into `m`, in order. */
  function Absorb(m: map<string, string>, ps: seq<Property>): map<string, string>
    decreases |ps|
  {
    if ps == [] then m
    else
      var before := Absorb(m, ps[..|ps| - 1]);
      var p := ps[|ps| - 1];
      if IsString(p) then before[p.name := p.value.data] else before
  }

  /** Absorbing two pages one after the other is absorbing their concatenation. */
  lemma {:induction false} AbsorbAppend(m: map<string, string>, a: seq<Property>, b: seq<Property>)
    ensures Absorb(m, a + b) == Absorb(Absorb(m, a), b)
    decreases |b|
  {
    if b == [] {
      assert a + b == a;
    } else {
      assert (a + b)[..|a + b| - 1] == a + b[..|b| - 1];
      AbsorbAppend(m, a, b[..|b| - 1]);
    }
  }

  /** The map after one more page is that page absorbed into the map before it. */
  lemma AbsorbNextPage(steps: seq<Result<Step<Property>, Error>>, i: nat)
    requires Terminates(steps) && i <= FirstStop(steps) && steps[i].Success?
    ensures Absorb(map[], Gathered(steps, i + 1)) == Absorb(Absorb(map[], Gathered(steps, i)), steps[i].value.items)
  {
    AbsorbAppend(map[], Gathered(steps, i), steps[i].value.items);
  }

  /** No String-kind property named k comes after index i. */
  predicate LastStringNamed(ps: seq<Property>, i: int, k: string)
  {
    0 <= i < |ps| && IsString(ps[i]) && ps[i].name == k &&
    forall j :: i < j < |ps| ==> !(IsString(ps[j]) && ps[j].name == k)
  }

  /** The absorbed map holds exactly the old names and those of String-kind properties. */
  lemma {:induction false} AbsorbKeys(m: map<string, string>, ps: seq<Property>, k: string)
    ensures k in Absorb(m, ps) <==> k in m || exists i :: 0 <= i < |ps| && IsString(ps[i]) && ps[i].name == k
    decreases |ps|
  {
    if ps != [] {
      var init := ps[..|ps| - 1];
      AbsorbKeys(m, init, k);
      assert forall i :: 0 <= i < |init| ==> init[i] == ps[i];
    }
  }

  /** A name maps to the data of the last String-kind property with that name. */
  lemma {:induction false} AbsorbLastWins(m: map<string, string>, ps: seq<Property>, i: nat, k: string)
    requires LastStringNamed(ps, i, k)
    ensures k in Absorb(m, ps) && Absorb(m, ps)[k] == ps[i].value.data
    decreases |ps|
  {
    var p := ps[|ps| - 1];
    if i < |ps| - 1 {
      var init := ps[..|ps| - 1];
      assert LastStringNamed(init, i, k);
      AbsorbLastWins(m, init, i, k);
    }
  }

  /** A name no String-kind property carries keeps its old value. */
  lemma {:induction false} AbsorbKeeps(m: map<string, string>, ps: seq<Property>, k: string)
    requires k in m
    requires forall i :: 0 <= i < |ps| ==> !(IsString(ps[i]) && ps[i].name == k)
    ensures k in Absorb(m, ps) && Absorb(m, ps)[k] == m[k]
    decreases |ps|
  {
    if ps != [] {
      AbsorbKeeps(m, ps[..|ps| - 1], k);
    }
  }

  /** One fetch of a property page, seen by the loop. */
  function PropertyStep(c: Client, reply: Reply<PropertiesListPage>): Result<Step<Property>, Error>
  {
    match Fetch(c, reply)
    case Failure(e) => Failure(e)
    case Success(page) => Success(Step(page.properties, page.continuationToken))
  }

  function PropertySteps(c: Client, replies: seq<Reply<PropertiesListPage>>): seq<Result<Step<Property>, Error>>
  {
    seq(|replies|, i requires 0 <= i < |replies| => PropertyStep(c, replies[i]))
  }

  /** The base path of the GetProperties requests for `name`. */
  function PropertiesPath(name: string): string
  {
    "Names/" + name + "/$/GetProperties"
  }

  /** The parameter every GetProperties request adds after the token. */
  const IncludeValues: seq<Injector> := [WithParam("IncludeValues", "true")]

  /** What the paginated part of GetProperties returns. */
  function PropertiesOutcome(steps: seq<Result<Step<Property>, Error>>): Result<Lookup, Error>
    requires Terminates(steps)
  {
    match Outcome(steps)
    case Failure(e) => Failure(e)
    case Success(ps) => Success(Found(Absorb(map[], ps)))
  }

  /** A failing fetch reached by the loop is what the paginated part returns. */
  lemma PropertiesFailed(steps: seq<Result<Step<Property>, Error>>, i: nat)
    requires Terminates(steps) && i <= FirstStop(steps) && steps[i].Failure?
    ensures PropertiesOutcome(steps) == Failure(steps[i].error)
  {
    Finish(steps, i);
  }

  /** A last page reached by the loop completes the map with its own properties. */
  lemma PropertiesDone(steps: seq<Result<Step<Property>, Error>>, i: nat)
    requires Terminates(steps) && i <= FirstStop(steps) && steps[i].Success? && steps[i].value.next == ""
    ensures FirstStop(steps) == i
    ensures PropertiesOutcome(steps) == Success(Found(Absorb(Absorb(map[], Gathered(steps, i)), steps[i].value.items)))
  {
    Finish(steps, i);
    AbsorbNextPage(steps, i);
  }

  /** The loop of GetProperties over the properties of one page. */
  method AbsorbPage(m: map<string, string>, ps: seq<Property>) returns (properties: map<string, string>)
    ensures properties == Absorb(m, ps)
  {
    properties := m;
    for j := 0 to |ps|
      invariant properties == Absorb(m, ps[..j])
    {
      var property := ps[j];
      assert ps[..j + 1][..j] == ps[..j];
      if property.value.kind == "String" {
        properties := properties[property.name := property.value.data];
      }
    }
    assert ps[..|ps|] == ps;
  }

  /**
   The loop of GetProperties over the pages under `path`. `replies` answer
   the requests in the order they are sent; `requests` are their URLs, each
   carrying the token and then the `extra` injectors.
   */
  method CollectProperties(c: Client, path: string, extra: seq<Injector>, replies: seq<Reply<PropertiesListPage>>)
      returns (r: Result<Lookup, Error>, requests: seq<string>)
    requires c.hasTransport && Terminates(PropertySteps(c, replies))
    ensures r == PropertiesOutcome(PropertySteps(c, replies))
    ensures requests == RequestURLs(c, path, extra, PropertySteps(c, replies), FirstStop(PropertySteps(c, replies)) + 1)
  {
    ghost var steps := PropertySteps(c, replies);
    var properties: map<string, string> := map[];
    var continueToken := "";
    var i := 0;
    requests := [];
    while true
      invariant i <= FirstStop(steps)
      invariant properties == Absorb(map[], Gathered(steps, i))
      invariant continueToken == SentToken(steps, i)
      invariant requests == RequestURLs(c, path, extra, steps, i)
      decreases |replies| - i
    {
      var url := GetURL(c, path, [WithContinue(continueToken)] + extra);
      requests := requests + [url];
      assert requests == RequestURLs(c, path, extra, steps, i + 1);
      var res := Fetch(c, replies[i]);
      assert steps[i] == PropertyStep(c, replies[i]);
      if res.Failure? {
        PropertiesFailed(steps, i);
        r := Failure(res.error);
        return;
      }
      var page := res.value;
      AbsorbNextPage(steps, i);
      properties := AbsorbPage(properties, page.properties);
      continueToken := page.continuationToken;
      if continueToken == "" {
        PropertiesDone(steps, i);
        r := Success(Found(properties));
        return;
      }
      Advance(steps, i);
      i := i + 1;
    }
  }

  /**
   GetProperties. `probe` answers the existence check; `replies` answer the
   GetProperties requests in the order they are sent; `requests` are the URLs
   of those requests.
   */
  method GetProperties(c: Client, name: string, probe: RawReply, replies: seq<Reply<PropertiesListPage>>)
      returns (r: Result<Lookup, Error>, requests: seq<string>)
    requires NameExists(c, probe) == Success(true) ==> Terminates(PropertySteps(c, replies))
    ensures NameExists(c, probe).Failure? ==> r == Failure(NameExists(c, probe).error) && requests == []
    ensures NameExists(c, probe) == Success(false) ==> r == Success(Absent) && requests == []
    ensures NameExists(c, probe) == Success(true) ==>
              r == PropertiesOutcome(PropertySteps(c, replies)) &&
              requests == RequestURLs(c, PropertiesPath(name), IncludeValues, PropertySteps(c, replies),
                                      FirstStop(PropertySteps(c, replies)) + 1)
  {
    var nameExists := NameExists(c, probe);
    if nameExists.Failure? {
      return Failure(nameExists.error), [];
    }
    if !nameExists.value {
      return Success(Absent), [];
    }
    r, requests := CollectProperties(c, PropertiesPath(name), IncludeValues, replies);
  }

  /**
   Found properties: exactly the String-kind properties of all fetched pages,
   each name mapped to the data of its last String-kind occurrence.
   */
  lemma FoundProperties(steps: seq<Result<Step<Property>, Error>>, found: map<string, string>, k: string)
    requires Terminates(steps) && PropertiesOutcome(steps) == Success(Found(found))
    ensures Outcome(steps).Success?
    ensures var all := Outcome(steps).value;
            && (k in found <==> exists i :: 0 <= i < |all| && IsString(all[i]) && all[i].name == k)
            && forall i :: LastStringNamed(all, i, k) ==> found[k] == all[i].value.data
  {
    var all := Outcome(steps).value;
    assert found == Absorb(map[], all);
    AbsorbKeys(map[], all, k);
    forall i | LastStringNamed(all, i, k) ensures found[k] == all[i].value.data {
      AbsorbLastWins(map[], all, i, k);
    }
  }

  /**
   Every GetProperties request asks for values; only requests after the first
   carry `continue=` with the token of the page before.
   */
  lemma PropertiesRequestURL(c: Client, name: string, steps: seq<Result<Step<Property>, Error>>, j: nat)
    requires Terminates(steps) && j <= FirstStop(steps)
    ensures j > 0 ==> steps[j - 1].Success? && steps[j - 1].value.next != ""
    ensures RequestURLs(c, PropertiesPath(name), IncludeValues, steps, FirstStop(steps) + 1)[j]
         == c.endpoint + "/" + PropertiesPath(name) + "?api-version=" + c.apiVersion
            + (if j == 0 then "" else "&continue=" + steps[j - 1].value.next)
            + ("&" + "IncludeValues" + "=" + "true")
  {
    TokensSent(steps, j);
    PropertiesRequestIsURL(c, name, steps, j);
    ContinueThenParamURL(c, PropertiesPath(name), SentToken(steps, j), "IncludeValues", "true");
  }

  lemma PropertiesRequestIsURL(c: Client, name: string, steps: seq<Result<Step<Property>, Error>>, j: nat)
    requires Terminates(steps) && j <= FirstStop(steps)
    ensures RequestURLs(c, PropertiesPath(name), IncludeValues, steps, FirstStop(steps) + 1)[j]
         == URL(c, PropertiesPath(name), [WithContinue(SentToken(steps, j)), WithParam("IncludeValues", "true")])
  {
    RequestURLAt(c, PropertiesPath(name), IncludeValues, steps, FirstStop(steps) + 1, j);
    assert [WithContinue(SentToken(steps, j))] + IncludeValues
        == [WithContinue(SentToken(steps, j)), WithParam("IncludeValues", "true")];
  }
}
