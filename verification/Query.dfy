/** The query layer: retries, chunked range fetches, and the walk over the validator set's pages. */
module Query {
  import opened Domain

  datatype Response<+T> = Good(data: T) | Bad(error: string)

  // ---- retries ------------------------------------------------------------

  /** One call either resolves, well or badly, or throws. */
  datatype Attempt<+T> = Resolved(response: Response<T>) | Threw(error: string)

  function Settled<T>(a: Attempt<T>): Response<T> {
    if a.Resolved? then a.response else Bad(a.error)
  }

  function Pow2(n: nat): nat { if n == 0 then 1 else 2 * Pow2(n - 1) }

  /** Total waiting, in milliseconds, before the n-th call: 100 + 200 + 400 + ... */
  function Backoff(calls: nat): nat {
    if calls <= 1 then 0 else Backoff(calls - 1) + 100 * Pow2(calls - 2)
  }

  lemma {:induction false} BackoffClosedForm(calls: nat)
    requires calls >= 1
    ensures Backoff(calls) == 100 * (Pow2(calls - 1) - 1)
  {
    if calls > 1 {
      BackoffClosedForm(calls - 1);
    }
  }

  /** How many calls are made: up to the first success, if there is one. */
  function CallsMade<T>(call: nat -> Attempt<T>, attempts: nat): (n: nat)
    ensures n <= attempts
    ensures forall i :: 0 <= i < n - 1 ==> Settled(call(i)).Bad?
    ensures n < attempts ==> n > 0 && Settled(call(n - 1)).Good?
  {
    if attempts == 0 then 0
    else
      var before := CallsMade(call, attempts - 1);
      if before == attempts - 1 && (before == 0 || Settled(call(before - 1)).Bad?) then attempts else before
  }

  /** What a request that may be tried several times comes to: the first success, or the last failure. */
  function Retried<T>(call: nat -> Attempt<T>, attempts: nat): Response<T> {
    var n := CallsMade(call, attempts);
    if n == 0 then Bad("No attempts made") else Settled(call(n - 1))
  }

  /**
   * The first success, or the last failure. Never throws, calls no further once one call succeeded,
   * and waits 100, 200, 400, ... milliseconds between calls.
   */
  method WithRetry<T>(call: nat -> Attempt<T>, attempts: nat) returns (result: Response<T>, calls: nat, waited: nat)
    ensures result == Retried(call, attempts) && calls == CallsMade(call, attempts)
    ensures result.Good? <==> exists i :: 0 <= i < attempts && Settled(call(i)).Good?
    ensures result.Bad? ==> calls == attempts
    ensures waited == if calls == 0 then 0 else 100 * (Pow2(calls - 1) - 1)
  {
    result, calls, waited := Bad("No attempts made"), 0, 0;
    for attempt := 0 to attempts
      invariant calls == attempt && waited == Backoff(attempt)
      invariant forall i :: 0 <= i < attempt ==> Settled(call(i)).Bad?
      invariant result.Bad? && (attempt > 0 ==> result == Settled(call(attempt - 1)))
      invariant attempt == 0 ==> result == Bad("No attempts made")
    {
      if attempt > 0 {
        waited := waited + 100 * Pow2(attempt - 1);
      }
      var outcome := call(attempt);
      result := if outcome.Resolved? then outcome.response else Bad(outcome.error);
      calls := attempt + 1;
      if result.Good? {
        BackoffClosedForm(calls);
        CallsAre(call, attempts, calls);
        return;
      }
    }
    CallsAre(call, attempts, calls);
    if calls > 0 {
      BackoffClosedForm(calls);
    }
  }

  lemma CallsAre<T>(call: nat -> Attempt<T>, attempts: nat, n: nat)
    requires n <= attempts && forall i :: 0 <= i < n - 1 ==> Settled(call(i)).Bad?
    requires n < attempts ==> n > 0 && Settled(call(n - 1)).Good?
    ensures CallsMade(call, attempts) == n
  {
    var m := CallsMade(call, attempts);
    assert m == 0 ==> attempts == 0;
  }

  // ---- range fetches ------------------------------------------------------

  /**
   * Commits for the heights [from, until), fetched chunk by chunk: the result for each height is what
   * its own request comes to after its own retries, whatever the chunk size and whatever the others
   * come to; a request that throws counts as failed. No more than one chunk is ever in flight.
   */
  method GetRangeCommits<T>(from: int, until: int, chunkSize: int, attempts: nat, fetch: (int, nat) -> Attempt<T>)
    returns (results: seq<Response<T>>, mostInFlight: int)
    requires chunkSize > 0
    ensures |results| == if from <= until then until - from else 0
    ensures forall i :: 0 <= i < |results| ==> results[i] == Retried(n => fetch(from + i, n), attempts)
    ensures 0 <= mostInFlight <= chunkSize
  {
    var heights := if from <= until then seq(until - from, i => from + i) else [];
    results, mostInFlight := [], 0;
    var i := 0;
    while i < |heights|
      invariant 0 <= i
      invariant |results| == if i <= |heights| then i else |heights|
      invariant forall j :: 0 <= j < |results| ==> results[j] == Retried(n => fetch(from + j, n), attempts)
      invariant 0 <= mostInFlight <= chunkSize
    {
      var end := if i + chunkSize <= |heights| then i + chunkSize else |heights|;
      var chunk := heights[i..end];
      if |chunk| > mostInFlight {
        mostInFlight := |chunk|;
      }
      var settled := FetchChunk(chunk, attempts, fetch);
      results := results + settled;
      i := i + chunkSize;
    }
  }

  /** One chunk's requests; each keeps its own place. */
  method FetchChunk<T>(chunk: seq<int>, attempts: nat, fetch: (int, nat) -> Attempt<T>) returns (settled: seq<Response<T>>)
    ensures |settled| == |chunk|
    ensures forall j :: 0 <= j < |chunk| ==> settled[j] == Retried(n => fetch(chunk[j], n), attempts)
  {
    settled := [];
    for k := 0 to |chunk|
      invariant |settled| == k
      invariant forall j :: 0 <= j < k ==> settled[j] == Retried(n => fetch(chunk[j], n), attempts)
    {
      var height := chunk[k];
      var result, _, _ := WithRetry(n => fetch(height, n), attempts);
      settled := settled + [result];
    }
  }

  // ---- the validator set's pages ------------------------------------------

  datatype Page = Page(validators: seq<string>, nextKey: Option<string>)

  function KeyOf(p: Page): string { p.nextKey.GetOr("") }

  /** Pagination says that nothing follows. */
  predicate IsLast(p: Page) { p.nextKey == None || p.nextKey == Some("") }

  /**
   * The page loop as written, over at most `fuel` requests: `answer(i, key)` answers the i-th request.
   * The key for the next request is always taken from the first page. So every request after the
   * first asks for the same page, the walk ends well only if the first page has no successor, and
   * otherwise ends only when a request fails; absent fuel it goes on for ever.
   */
  method GetValset(answer: (nat, string) -> Response<Page>, fuel: nat)
    returns (result: Option<Response<Page>>, keys: seq<string>)
    ensures |keys| <= fuel && (result.None? ==> |keys| == fuel)
    ensures |keys| > 0 ==> keys[0] == ""
    ensures forall i :: 1 <= i < |keys| ==> answer(0, "").Good? && answer(0, "").data.nextKey == Some(keys[i]) && keys[i] != ""
    ensures fuel > 0 ==>
              (result.Some? && result.value.Good? <==> answer(0, "").Good? && IsLast(answer(0, "").data))
    ensures result.Some? && result.value.Good? ==> result.value == answer(0, "") && |keys| == 1
    ensures result.Some? && result.value.Bad? ==> |keys| > 0 && result.value == answer(|keys| - 1, keys[|keys| - 1])
    ensures result.None? ==> forall i :: 0 <= i < fuel ==> answer(i, keys[i]).Good?
  {
    var nextKey := "";
    var gathered: Option<Page> := None;
    keys := [];
    while |keys| < fuel
      invariant |keys| <= fuel
      invariant |keys| == 0 <==> gathered.None?
      invariant |keys| == 0 ==> nextKey == ""
      invariant |keys| > 0 ==> keys[0] == "" && answer(0, "").Good? && gathered.value.nextKey == answer(0, "").data.nextKey
      invariant |keys| > 0 ==> nextKey == KeyOf(answer(0, "").data) != ""
      invariant forall i :: 1 <= i < |keys| ==> keys[i] == KeyOf(answer(0, "").data)
      invariant forall i :: 0 <= i < |keys| ==> answer(i, keys[i]).Good?
      decreases fuel - |keys|
    {
      var key := nextKey;
      var response := answer(|keys|, key);
      keys := keys + [key];
      if response.Bad? {
        return Some(response), keys;
      }
      if gathered.None? {
        gathered := Some(response.data);
      } else {
        gathered := Some(gathered.value.(validators := gathered.value.validators + response.data.validators));
      }
      nextKey := KeyOf(gathered.value);
      if nextKey == "" {
        return Some(Good(gathered.value)), keys;
      }
    }
    return None, keys;
  }

  /** A server that hands out the set in `pages` pages, under keys of its own. */
  ghost predicate Serves(answer: (nat, string) -> Response<Page>, pages: seq<Page>) {
    && pages != []
    && (forall i :: answer(i, "") == Good(pages[0]))
    && (forall i, j :: 0 <= j < |pages| - 1 ==> !IsLast(pages[j]) && answer(i, KeyOf(pages[j])) == Good(pages[j + 1]))
    && IsLast(pages[|pages| - 1])
  }

  function AllValidators(pages: seq<Page>): seq<string> {
    if pages == [] then [] else AllValidators(pages[..|pages| - 1]) + pages[|pages| - 1].validators
  }

  /**
   * Against a server whose requests never fail, the loop returns the whole set exactly when the set
   * fits one page; with more pages no amount of requests ends it.
   */
  method WalkServer(answer: (nat, string) -> Response<Page>, pages: seq<Page>, fuel: nat) returns (result: Option<Response<Page>>)
    requires Serves(answer, pages) && fuel > 0
    ensures result.Some? <==> |pages| == 1
    ensures |pages| == 1 ==> result.value.Good? && result.value.data.validators == AllValidators(pages)
  {
    var keys: seq<string>;
    result, keys := GetValset(answer, fuel);
    assert answer(0, "") == Good(pages[0]);
    if |pages| == 1 {
      assert pages[..0] == [];
    } else {
      var second := KeyOf(pages[0]);
      assert second != "" && forall i :: answer(i, second) == Good(pages[1]);
    }
  }

  lemma LastPageIff(answer: (nat, string) -> Response<Page>, pages: seq<Page>, k: nat)
    requires Serves(answer, pages) && k < |pages|
    ensures KeyOf(pages[k]) == "" <==> k == |pages| - 1
  {
    if k < |pages| - 1 {
      assert answer(0, KeyOf(pages[k])) == Good(pages[k + 1]);
      assert !IsLast(pages[k]);
    } else {
      assert IsLast(pages[k]);
    }
  }

  /**
   * The walk as pagination means it, with the key read from the page just fetched: it fetches each
   * page once, needs no bound to end, and returns all pages one after the other, or the failure that cut it off.
   */
  method WalkPages(answer: (nat, string) -> Response<Page>, pages: seq<Page>, fails: nat -> bool)
    returns (result: Response<Page>, calls: nat)
    requires Serves(answer, pages)
    ensures result.Good? <==> forall i :: 0 <= i < |pages| ==> !fails(i)
    ensures result.Good? ==> calls == |pages| && result.data.validators == AllValidators(pages)
    ensures result.Bad? ==> 1 <= calls <= |pages| && fails(calls - 1)
  {
    var nextKey := "";
    var gathered: Option<Page> := None;
    calls := 0;
    while true
      invariant 0 <= calls < |pages|
      invariant forall i :: 0 <= i < calls ==> !fails(i)
      invariant calls == 0 <==> gathered.None?
      invariant nextKey == if calls == 0 then "" else KeyOf(pages[calls - 1])
      invariant calls > 0 ==> gathered.value.validators == AllValidators(pages[..calls])
      decreases |pages| - calls
    {
      var response := answer(calls, nextKey);
      assert response == Good(pages[calls]);
      calls := calls + 1;
      if fails(calls - 1) {
        return Bad("request failed"), calls;
      }
      assert pages[..calls][..calls - 1] == pages[..calls - 1];
      gathered := if gathered.None? then Some(response.data)
                  else Some(gathered.value.(validators := gathered.value.validators + response.data.validators));
      nextKey := KeyOf(response.data);
      LastPageIff(answer, pages, calls - 1);
      if nextKey == "" {
        assert pages[..calls] == pages;
        return Good(gathered.value), calls;
      }
    }
  }
}
