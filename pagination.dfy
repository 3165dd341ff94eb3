/**
 The continuation-token protocol shared by GetApplications, GetServices and
 GetProperties, stated over the outcome of each fetch in order: a failure, or
 the page's items and the token it hands back ("" meaning no more pages).
 */
module Pagination {
  import opened Wrappers
  import opened Model
  import opened Query
  import opened ServiceFabric

  datatype Step<T> = Step(items: seq<T>, next: string)

  /** The loop ends after this fetch: it failed, or the page carried no token. */
  predicate Stops<T>(s: Result<Step<T>, Error>)
  {
    s.Failure? || s.value.next == ""
  }

  /** The supplied fetch outcomes contain one at which the loop ends. */
  predicate Terminates<T>(steps: seq<Result<Step<T>, Error>>)
  {
    exists i :: 0 <= i < |steps| && Stops(steps[i])
  }

  /** The first fetch at or after `i` at which the loop ends. */
  function FirstStopFrom<T>(steps: seq<Result<Step<T>, Error>>, i: nat): (k: nat)
    requires i <= |steps|
    requires exists j :: i <= j < |steps| && Stops(steps[j])
    ensures i <= k < |steps| && Stops(steps[k])
    ensures forall j :: i <= j < k ==> !Stops(steps[j])
    decreases |steps| - i
  {
    if Stops(steps[i]) then i else FirstStopFrom(steps, i + 1)
  }

  /** Index of the last fetch the loop performs. */
  function FirstStop<T>(steps: seq<Result<Step<T>, Error>>): (k: nat)
    requires Terminates(steps)
    ensures k < |steps| && Stops(steps[k])
    ensures forall j :: 0 <= j < k ==> !Stops(steps[j])
  {
    FirstStopFrom(steps, 0)
  }

  /** The continuation token the j-th request carries. */
  function SentToken<T>(steps: seq<Result<Step<T>, Error>>, j: nat): string
    requires j < |steps|
    requires j > 0 ==> steps[j - 1].Success?
  {
    if j == 0 then "" else steps[j - 1].value.next
  }

  /**
   The URLs of the first n requests under `basePath`: each carries the token
   it is sent with, then the fixed `extra` parameters.
   */
  function RequestURLs<T>(c: Client, basePath: string, extra: seq<Injector>,
                          steps: seq<Result<Step<T>, Error>>, n: nat): (urls: seq<string>)
    requires n <= |steps|
    requires forall j :: 0 <= j < n - 1 ==> steps[j].Success?
    ensures |urls| == n
  {
    if n == 0 then []
    else RequestURLs(c, basePath, extra, steps, n - 1) + [URL(c, basePath, [WithContinue(SentToken(steps, n - 1))] + extra)]
  }

  /** The j-th request carries the j-th sent token, then the fixed parameters. */
  lemma {:induction false} RequestURLAt<T>(c: Client, basePath: string, extra: seq<Injector>,
                                         steps: seq<Result<Step<T>, Error>>, n: nat, j: nat)
    requires n <= |steps|
    requires forall i :: 0 <= i < n - 1 ==> steps[i].Success?
    requires j < n
    ensures RequestURLs(c, basePath, extra, steps, n)[j] == URL(c, basePath, [WithContinue(SentToken(steps, j))] + extra)
    decreases n
  {
    if j < n - 1 {
      RequestURLAt(c, basePath, extra, steps, n - 1, j);
    }
  }

  /** The items of the first n pages, page after page. */
  function Gathered<T>(steps: seq<Result<Step<T>, Error>>, n: nat): seq<T>
    requires n <= |steps|
    requires forall j :: 0 <= j < n ==> steps[j].Success?
  {
    if n == 0 then [] else Gathered(steps, n - 1) + steps[n - 1].value.items
  }

  /** What the loop returns: the first error, or every page's items. */
  function Outcome<T>(steps: seq<Result<Step<T>, Error>>): Result<seq<T>, Error>
    requires Terminates(steps)
  {
    var k := FirstStop(steps);
    if steps[k].Failure? then Failure(steps[k].error) else Success(Gathered(steps, k + 1))
  }

  /** A page with a token lets the loop go on to the next fetch, carrying that token. */
  lemma Advance<T>(steps: seq<Result<Step<T>, Error>>, i: nat)
    requires Terminates(steps) && i <= FirstStop(steps)
    requires steps[i].Success? && steps[i].value.next != ""
    ensures i + 1 <= FirstStop(steps)
    ensures Gathered(steps, i + 1) == Gathered(steps, i) + steps[i].value.items
    ensures SentToken(steps, i + 1) == steps[i].value.next
  {
  }

  /** The fetch at which the loop ends decides its outcome. */
  lemma Finish<T>(steps: seq<Result<Step<T>, Error>>, i: nat)
    requires Terminates(steps) && i <= FirstStop(steps) && Stops(steps[i])
    ensures FirstStop(steps) == i
    ensures steps[i].Failure? ==> Outcome(steps) == Failure(steps[i].error)
    ensures steps[i].Success? ==> Outcome(steps) == Success(Gathered(steps, i + 1))
    ensures steps[i].Success? ==> Gathered(steps, i + 1) == Gathered(steps, i) + steps[i].value.items
  {
  }

  /** Any fetch that fails or returns no token bounds the number of fetches. */
  lemma StopBoundsFetches<T>(steps: seq<Result<Step<T>, Error>>, j: nat)
    requires j < |steps| && Stops(steps[j])
    ensures Terminates(steps) && FirstStop(steps) <= j
  {
  }

  /** Only the first request goes out without a token; every later one carries the previous page's non-empty token. */
  lemma TokensSent<T>(steps: seq<Result<Step<T>, Error>>, j: nat)
    requires Terminates(steps) && j <= FirstStop(steps)
    ensures j == 0 ==> SentToken(steps, j) == ""
    ensures j > 0 ==> steps[j - 1].Success? && SentToken(steps, j) == steps[j - 1].value.next != ""
  {
  }

  /** A failing fetch reached by the loop aborts it with that fetch's error and nothing else. */
  lemma FailureAborts<T>(steps: seq<Result<Step<T>, Error>>, j: nat)
    requires j < |steps| && steps[j].Failure?
    requires forall i :: 0 <= i < j ==> !Stops(steps[i])
    ensures Terminates(steps) && FirstStop(steps) == j
    ensures Outcome(steps) == Failure(steps[j].error)
  {
  }

  /** The loop fails exactly when the last fetch it performs fails. */
  lemma OutcomeFails<T>(steps: seq<Result<Step<T>, Error>>)
    requires Terminates(steps)
    ensures Outcome(steps).Failure? <==> steps[FirstStop(steps)].Failure?
    ensures Outcome(steps).Success? ==> steps[FirstStop(steps)].value.next == ""
  {
  }

  /** When the first page has no token, exactly one fetch happens and its items are the result. */
  lemma SingleFetch<T>(steps: seq<Result<Step<T>, Error>>)
    requires |steps| > 0 && steps[0].Success? && steps[0].value.next == ""
    ensures Terminates(steps) && FirstStop(steps) == 0
    ensures Outcome(steps) == Success(steps[0].value.items)
  {
    assert Stops(steps[0]);
    assert Gathered(steps, 1) == [] + steps[0].value.items == steps[0].value.items;
    assert Outcome(steps) == Success(Gathered(steps, 1));
  }

  /** Page j's items sit in the result, in their order, right after those of the pages before it. */
  lemma {:induction false} GatheredAt<T>(steps: seq<Result<Step<T>, Error>>, n: nat, j: nat, i: nat)
    requires n <= |steps|
    requires forall m :: 0 <= m < n ==> steps[m].Success?
    requires j < n && i < |steps[j].value.items|
    ensures |Gathered(steps, j)| + i < |Gathered(steps, n)|
    ensures Gathered(steps, n)[|Gathered(steps, j)| + i] == steps[j].value.items[i]
    decreases n
  {
    if j < n - 1 {
      GatheredAt(steps, n - 1, j, i);
    }
  }

  /** N pages of M items each give N * M items. */
  lemma {:induction false} GatheredLength<T>(steps: seq<Result<Step<T>, Error>>, n: nat, m: nat)
    requires n <= |steps|
    requires forall j :: 0 <= j < n ==> steps[j].Success? && |steps[j].value.items| == m
    ensures |Gathered(steps, n)| == n * m
    decreases n
  {
    if n > 0 {
      GatheredLength(steps, n - 1, m);
    }
  }

  /**
   N pages of M items whose tokens run out on the last one: N fetches, N * M
   items in order.
   */
  lemma UniformPages<T>(steps: seq<Result<Step<T>, Error>>, n: nat, m: nat)
    requires 0 < n <= |steps|
    requires forall j :: 0 <= j < n ==> steps[j].Success? && |steps[j].value.items| == m
    requires forall j :: 0 <= j < n - 1 ==> steps[j].value.next != ""
    requires steps[n - 1].value.next == ""
    ensures Terminates(steps) && FirstStop(steps) == n - 1
    ensures Outcome(steps).Success? && |Outcome(steps).value| == n * m
  {
    assert Stops(steps[n - 1]);
    GatheredLength(steps, n, m);
  }
}
