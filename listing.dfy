/**
 GetApplications and GetServices: the continuation-token loop over item pages.
 The two Go functions differ only in the base path and the item type, so the
 loop is written once, generically, as CollectPages.
 */
module Listing {
  import opened Wrappers
  import opened Model
  import opened Query
  import opened ServiceFabric
  import opened Pagination

  /** One fetch of an item page, seen by the loop: its error, or its items and next token. */
  function PageStep<T>(c: Client, reply: Reply<Page<T>>): Result<Step<T>, Error>
  {
    match Fetch(c, reply)
    case Failure(e) => Failure(e)
    case Success(page) => Success(Step(page.items, GetString(page.continuationToken)))
  }

  function PageSteps<T>(c: Client, replies: seq<Reply<Page<T>>>): seq<Result<Step<T>, Error>>
  {
    seq(|replies|, i requires 0 <= i < |replies| => PageStep(c, replies[i]))
  }

  /**
   The loop of GetApplications and GetServices. `replies` are the transport's
   answers to the requests in the order they are sent; `requests` are the URLs
   sent; `extra` are the injectors applied after the token (none for these
   two). The Go loop has no bound, so the answers must contain one that ends it.
   */
  method CollectPages<T>(c: Client, basePath: string, extra: seq<Injector>, replies: seq<Reply<Page<T>>>)
      returns (r: Result<seq<T>, Error>, requests: seq<string>)
    requires !c.hasTransport || Terminates(PageSteps(c, replies))
    ensures !c.hasTransport ==> r == Failure(InvalidClient) && requests == []
    ensures c.hasTransport ==> r == Outcome(PageSteps(c, replies))
    ensures c.hasTransport ==>
              requests == RequestURLs(c, basePath, extra, PageSteps(c, replies), FirstStop(PageSteps(c, replies)) + 1)
  {
    requests := [];
    if !c.hasTransport {
      // getHTTP refuses a nil client on the first iteration, before any request is sent
      r := Failure(InvalidClient);
      return;
    }
    ghost var steps := PageSteps(c, replies);
    var aggregate: seq<T> := [];
    var continueToken := "";
    var i := 0;
    while true
      invariant i <= FirstStop(steps)
      invariant aggregate == Gathered(steps, i)
      invariant continueToken == SentToken(steps, i)
      invariant requests == RequestURLs(c, basePath, extra, steps, i)
      decreases |replies| - i
    {
      var url := GetURL(c, basePath, [WithContinue(continueToken)] + extra);
      requests := requests + [url];
      assert requests == RequestURLs(c, basePath, extra, steps, i + 1);
      var res := Fetch(c, replies[i]);
      assert steps[i] == PageStep(c, replies[i]);
      if res.Failure? {
        Finish(steps, i);
        r := Failure(res.error);
        return;
      }
      var page := res.value;
      aggregate := aggregate + page.items;
      continueToken := GetString(page.continuationToken);
      if continueToken == "" {
        Finish(steps, i);
        break;
      }
      Advance(steps, i);
      i := i + 1;
    }
    r := Success(aggregate);
  }

  /** GetApplications: every application of every page, in order. */
  method GetApplications(c: Client, replies: seq<Reply<Page<ApplicationItem>>>)
      returns (r: Result<seq<ApplicationItem>, Error>, requests: seq<string>)
    requires !c.hasTransport || Terminates(PageSteps(c, replies))
    ensures !c.hasTransport ==> r == Failure(InvalidClient) && requests == []
    ensures c.hasTransport ==> r == Outcome(PageSteps(c, replies))
    ensures c.hasTransport ==>
              requests == RequestURLs(c, "Applications/", [], PageSteps(c, replies), FirstStop(PageSteps(c, replies)) + 1)
  {
    r, requests := CollectPages(c, "Applications/", [], replies);
  }

  /** GetServices: every service of the application, over all pages, in order. */
  method GetServices(c: Client, appName: string, replies: seq<Reply<Page<ServiceItem>>>)
      returns (r: Result<seq<ServiceItem>, Error>, requests: seq<string>)
    requires !c.hasTransport || Terminates(PageSteps(c, replies))
    ensures !c.hasTransport ==> r == Failure(InvalidClient) && requests == []
    ensures c.hasTransport ==> r == Outcome(PageSteps(c, replies))
    ensures c.hasTransport ==>
              requests == RequestURLs(c, "Applications/" + appName + "/$/GetServices", [], PageSteps(c, replies),
                                      FirstStop(PageSteps(c, replies)) + 1)
  {
    r, requests := CollectPages(c, "Applications/" + appName + "/$/GetServices", [], replies);
  }

  /**
   The first listing request carries only the API version; each later one adds
   `continue=` with the token of the page before it.
   */
  lemma ListingRequestURL<T>(c: Client, basePath: string, steps: seq<Result<Step<T>, Error>>, j: nat)
    requires Terminates(steps) && j <= FirstStop(steps)
    ensures j > 0 ==> steps[j - 1].Success? && steps[j - 1].value.next != ""
    ensures RequestURLs(c, basePath, [], steps, FirstStop(steps) + 1)[j]
         == c.endpoint + "/" + basePath + "?api-version=" + c.apiVersion
            + (if j == 0 then "" else "&continue=" + steps[j - 1].value.next)
  {
    TokensSent(steps, j);
    ListingRequestIsContinueURL(c, basePath, steps, j);
    ContinueURL(c, basePath, SentToken(steps, j));
  }

  lemma ListingRequestIsContinueURL<T>(c: Client, basePath: string, steps: seq<Result<Step<T>, Error>>, j: nat)
    requires Terminates(steps) && j <= FirstStop(steps)
    ensures RequestURLs(c, basePath, [], steps, FirstStop(steps) + 1)[j] == URL(c, basePath, [WithContinue(SentToken(steps, j))])
  {
    RequestURLAt(c, basePath, [], steps, FirstStop(steps) + 1, j);
    assert [WithContinue(SentToken(steps, j))] + [] == [WithContinue(SentToken(steps, j))];
  }
}
