/** The Tour API client: error classification, key rotation and exponential backoff.

The network is a script: `script(i)` is the response to the i-th request the client ever sends.
 */
module TourApi {
  import opened Common

  type Row = map<string, string>

  // body.items: "" or missing, one object, or a list that may hold non-objects.
  datatype Items = NoItems | Single(row: Row) | Listed(rows: seq<Option<Row>>)

  // A result code or an HTTP status as text: absent, "0000", "22", "429", or any other.
  datatype Code = NoCode | Code0000 | Code22 | Code429 | OtherCode(text: string)

  datatype Response =
    | RequestFailed(status: Code)  // timeout, connection error or HTTP error status
    | NotJson
    | Payload(resultCode: Code, items: Items)

  datatype ApiError =
    | TourApiError(code: Code, retryable: bool)
    | AllKeysExhausted(code: Code)

  function ExtractItems(items: Items): seq<Row> {
    match items
    case NoItems => []
    case Single(row) => [row]
    case Listed(rows) => Objects(rows)
  }

  function Objects(rows: seq<Option<Row>>): seq<Row> {
    if rows == [] then []
    else (if rows[0].Some? then [rows[0].value] else []) + Objects(rows[1..])
  }

  function Classify(response: Response): Result<seq<Row>, ApiError> {
    match response
    case RequestFailed(status) => Err(TourApiError(status, true))
    case NotJson => Err(TourApiError(NoCode, false))
    case Payload(code, items) =>
      if code.Code0000? then Ok(ExtractItems(items))
      else Err(TourApiError(code, code.Code22?))
  }

  predicate IsQuota(response: Response) {
    var outcome := Classify(response);
    outcome.Err? && (outcome.error.code.Code22? || outcome.error.code.Code429?)
  }

  datatype Event = Request(key: nat, response: Response) | Sleep(seconds: real)

  datatype Config = Config(keys: nat, maxRetries: int, backoffBase: real) {
    // Requests one key may take within one call.
    function Budget(): (n: nat)
      ensures n >= 1
    {
      if maxRetries > 0 then maxRetries + 1 else 1
    }
  }

  // `at` is the script position of the next request after the call.
  datatype CallOutcome = CallOutcome(result: Result<seq<Row>, ApiError>, key: nat, at: nat, events: seq<Event>)

  function Requests(events: seq<Event>): nat {
    if events == [] then 0
    else (if events[0].Request? then 1 else 0) + Requests(events[1..])
  }

  // base * 2^n
  function Doubled(base: real, n: nat): real {
    if n == 0 then base else 2.0 * Doubled(base, n - 1)
  }

  function Backoff(base: real, attempt: nat, quota: bool): real {
    var delay := Doubled(base, attempt);
    if quota && delay < base * 8.0 then base * 8.0 else delay
  }

  function Pause(base: real, attempt: nat, quota: bool): seq<Event> {
    var delay := Backoff(base, attempt, quota);
    if delay != 0.0 then [Sleep(delay)] else []
  }

  datatype Decision = Stop(result: Result<seq<Row>, ApiError>) | NextKey | Retry(pause: seq<Event>)

  function Decide(c: Config, key: nat, attempt: nat, response: Response): (d: Decision)
    ensures d.NextKey? ==> key + 1 < c.keys
    ensures d.Retry? ==> attempt < c.maxRetries && Requests(d.pause) == 0
  {
    match Classify(response)
    case Ok(rows) => Stop(Ok(rows))
    case Err(error) =>
      if IsQuota(response) && key + 1 < c.keys then NextKey
      else if IsQuota(response) && c.keys > 1 then Stop(Err(AllKeysExhausted(error.code)))
      else if error.TourApiError? && error.retryable && attempt < c.maxRetries then
        Retry(Pause(c.backoffBase, attempt, IsQuota(response)))
      else Stop(Err(error))
  }

  // One call, from the request about to be sent with `key` as attempt number `attempt`.
  function Call(c: Config, key: nat, attempt: nat, script: nat -> Response, at: nat): CallOutcome
    requires key < c.keys
    decreases c.keys - key, c.maxRetries - attempt
  {
    var request := Request(key, script(at));
    match Decide(c, key, attempt, script(at))
    case Stop(result) => CallOutcome(result, key, at + 1, [request])
    case NextKey => Prepend([request], Call(c, key + 1, 0, script, at + 1))
    case Retry(pause) => Prepend([request] + pause, Call(c, key, attempt + 1, script, at + 1))
  }

  function Prepend(events: seq<Event>, rest: CallOutcome): CallOutcome {
    rest.(events := events + rest.events)
  }

  class TourApiClient {
    const serviceKeys: seq<string>
    const maxRetries: int
    const backoffBase: real
    var keyIndex: nat
    var sent: nat               // requests sent so far
    ghost var trace: seq<Event> // every request and sleep so far

    ghost predicate Valid()
      reads this
    {
      keyIndex < |serviceKeys|
    }

    ghost function Conf(): Config {
      Config(|serviceKeys|, maxRetries, backoffBase)
    }

    // A list of keys given comes first, without its empty keys; then a single key; then the configured list, as it
    // is; then the configured single key. Never is there no key: the last resort is one empty key.
    constructor (keys: Option<seq<string>>, key: Option<string>, codes: seq<string>, code: string,
                 maxRetries: int, backoffBase: real)
      ensures Valid() && keyIndex == 0 && sent == 0 && trace == []
      ensures this.maxRetries == maxRetries && this.backoffBase == backoffBase
      ensures keys.Some? ==> serviceKeys == if NonEmpty(keys.value) == [] then [""] else NonEmpty(keys.value)
      ensures keys == None && key.Some? ==> serviceKeys == [key.value]
      ensures keys == None && key == None ==> serviceKeys == if codes != [] then codes else [code]
    {
      var chosen: seq<string>;
      if keys.Some? {
        chosen := NonEmpty(keys.value);
      } else if key.Some? {
        chosen := [key.value];
      } else {
        chosen := if codes != [] then codes else [code];
      }
      serviceKeys := if chosen == [] then [""] else chosen;
      this.maxRetries := maxRetries;
      this.backoffBase := backoffBase;
      keyIndex, sent, trace := 0, 0, [];
    }

    method RotateKey() returns (rotated: bool)
      requires Valid()
      modifies `keyIndex
      ensures Valid()
      ensures rotated == (old(keyIndex) + 1 < |serviceKeys|)
      ensures keyIndex == if rotated then old(keyIndex) + 1 else old(keyIndex)
    {
      if keyIndex + 1 >= |serviceKeys| {
        return false;
      }
      keyIndex := keyIndex + 1;
      return true;
    }

    method RequestOnce(script: nat -> Response) returns (response: Response)
      modifies `sent, `trace
      ensures response == script(old(sent)) && sent == old(sent) + 1
      ensures trace == old(trace) + [Request(keyIndex, response)]
    {
      response := script(sent);
      sent := sent + 1;
      trace := trace + [Request(keyIndex, response)];
    }

    // One request and what becomes of it: the loop body of the call, up to the sleep.
    method Attempt(script: nat -> Response, attempt: nat) returns (d: Decision)
      requires Valid()
      modifies `keyIndex, `sent, `trace
      ensures Valid()
      ensures d == Decide(Conf(), old(keyIndex), attempt, script(old(sent)))
      ensures keyIndex == if d.NextKey? then old(keyIndex) + 1 else old(keyIndex)
      ensures sent == old(sent) + 1
      ensures trace == old(trace) + [Request(old(keyIndex), script(old(sent)))]
    {
      var response := RequestOnce(script);
      var outcome := Classify(response);
      if outcome.Ok? {
        return Stop(Ok(outcome.value));
      }
      if IsQuota(response) {
        var rotated := RotateKey();
        if rotated {
          return NextKey;
        }
        if |serviceKeys| > 1 {
          return Stop(Err(AllKeysExhausted(outcome.error.code)));
        }
      }
      if outcome.error.retryable && attempt < maxRetries {
        return Retry(Pause(backoffBase, attempt, IsQuota(response)));
      }
      return Stop(Err(outcome.error));
    }

    method Get(script: nat -> Response) returns (r: Result<seq<Row>, ApiError>)
      requires Valid()
      modifies this
      ensures Valid()
      ensures CallOutcome(r, keyIndex, sent, trace) ==
              Prepend(old(trace), Call(Conf(), old(keyIndex), 0, script, old(sent)))
    {
      hide Call, Decide;
      ghost var whole := Prepend(trace, Call(Conf(), keyIndex, 0, script, sent));
      var attempt := 0;
      while true
        invariant Valid() && attempt >= 0
        invariant whole == Prepend(trace, Call(Conf(), keyIndex, attempt, script, sent))
        decreases |serviceKeys| - keyIndex, maxRetries - attempt
      {
        UnfoldCall(Conf(), trace, keyIndex, attempt, script, sent);
        var d := Attempt(script, attempt);
        match d
        case Stop(result) =>
          return result;
        case NextKey =>
          attempt := 0;
        case Retry(pause) =>
          trace := trace + pause;
          attempt := attempt + 1;
      }
    }
  }

  lemma UnfoldCall(c: Config, done: seq<Event>, key: nat, attempt: nat, script: nat -> Response, at: nat)
    requires key < c.keys
    ensures
      var whole := Prepend(done, Call(c, key, attempt, script, at));
      var done' := done + [Request(key, script(at))];
      match Decide(c, key, attempt, script(at))
      case Stop(result) => whole == CallOutcome(result, key, at + 1, done')
      case NextKey => whole == Prepend(done', Call(c, key + 1, 0, script, at + 1))
      case Retry(pause) => whole == Prepend(done' + pause, Call(c, key, attempt + 1, script, at + 1))
  {
    var request := [Request(key, script(at))];
    match Decide(c, key, attempt, script(at))
    case Stop(result) =>
    case NextKey =>
      PrependTwice(done, request, Call(c, key + 1, 0, script, at + 1));
    case Retry(pause) =>
      PrependTwice(done, request + pause, Call(c, key, attempt + 1, script, at + 1));
      assert done + request + pause == done + (request + pause);
  }

  lemma PrependTwice(a: seq<Event>, b: seq<Event>, rest: CallOutcome)
    ensures Prepend(a, Prepend(b, rest)) == Prepend(a + b, rest)
  {
    assert a + (b + rest.events) == (a + b) + rest.events;
  }

  function NonEmpty(keys: seq<string>): seq<string> {
    if keys == [] then []
    else (if keys[0] != "" then [keys[0]] else []) + NonEmpty(keys[1..])
  }

  // The keys given that are not empty, in order.
  lemma {:induction false} NonEmptyInOrder(a: seq<string>, b: seq<string>)
    ensures NonEmpty(a + b) == NonEmpty(a) + NonEmpty(b)
  {
    if a == [] {
      assert a + b == b;
    } else {
      NonEmptyInOrder(a[1..], b);
      assert (a + b)[1..] == a[1..] + b;
      Regrouped(if a[0] != "" then [a[0]] else [], NonEmpty(a[1..]), NonEmpty(b));
    }
  }

  lemma Regrouped(a: seq<string>, b: seq<string>, c: seq<string>)
    ensures a + (b + c) == a + b + c
  {
  }

  lemma NonEmptySingle(key: string)
    ensures NonEmpty([key]) == if key == "" then [] else [key]
  {
    assert [key][1..] == [];
  }

  lemma {:induction false} RequestsConcat(a: seq<Event>, b: seq<Event>)
    ensures Requests(a + b) == Requests(a) + Requests(b)
  {
    if a == [] {
      assert a + b == b;
    } else {
      RequestsConcat(a[1..], b);
      assert (a + b)[1..] == a[1..] + b;
    }
  }

  // ----- responses by their code

  function CodeOf(response: Response): Code {
    match response
    case RequestFailed(status) => status
    case NotJson => NoCode
    case Payload(resultCode, _) => resultCode
  }

  predicate IsFine(response: Response) {
    response.Payload? && response.resultCode == Code0000
  }

  // Code 22 or 429, in a payload or as HTTP status.
  predicate OutOfQuota(response: Response) {
    CodeOf(response) == Code22 || CodeOf(response) == Code429
  }

  // No JSON, or a payload with any code but 0000, 22 and 429: neither another key nor another attempt may cure it.
  predicate IsFatal(response: Response) {
    response.NotJson? || (response.Payload? && response.resultCode !in {Code0000, Code22, Code429})
  }

  predicate IsObject(row: Option<Row>) {
    row.Some?
  }

  // The result holds the objects of the list in order, and nothing else.
  ghost predicate HoldsObjects(rows: seq<Option<Row>>, result: seq<Row>) {
    && |result| == CountBefore(rows, IsObject, |rows|)
    && forall k: nat :: k < |rows| && rows[k].Some? ==>
         var at := CountBefore(rows, IsObject, k);
         at < |result| && result[at] == rows[k].value
  }

  lemma {:induction false} ObjectsAppend(rows: seq<Option<Row>>, row: Option<Row>)
    ensures Objects(rows + [row]) == Objects(rows) + if row.Some? then [row.value] else []
  {
    var all := rows + [row];
    if rows == [] {
      assert all == [row] && all[1..] == [];
    } else {
      ObjectsAppend(rows[1..], row);
      assert all[1..] == rows[1..] + [row] && all[0] == rows[0];
    }
  }

  lemma {:induction false} ObjectsInOrder(rows: seq<Option<Row>>)
    ensures HoldsObjects(rows, Objects(rows))
  {
    hide CountBefore;
    if rows == [] {
      CountBeforeNone(rows, IsObject);
    } else {
      var init, row := rows[..|rows| - 1], rows[|rows| - 1];
      assert rows == init + [row];
      ObjectsInOrder(init);
      ObjectsAppend(init, row);
      CountBeforeStep(rows, IsObject, |init|);
      CountBeforePrefix(init, [row], IsObject, |init|);
      forall k: nat | k < |rows| && rows[k].Some?
        ensures CountBefore(rows, IsObject, k) < |Objects(rows)|
        ensures Objects(rows)[CountBefore(rows, IsObject, k)] == rows[k].value
      {
        CountBeforePrefix(init, [row], IsObject, k);
        assert k < |init| ==> init[k] == rows[k];
      }
    }
  }

  // No row, the row, or the objects of the list.
  ghost predicate HoldsRows(items: Items, result: seq<Row>) {
    match items
    case NoItems => result == []
    case Single(row) => result == [row]
    case Listed(rows) => HoldsObjects(rows, result)
  }

  lemma ByCode(response: Response)
    ensures IsFine(response) ==> Classify(response).Ok? && HoldsRows(response.items, Classify(response).value)
    ensures !IsFine(response) ==>
              Classify(response) ==
              Err(TourApiError(CodeOf(response), response.RequestFailed? || CodeOf(response) == Code22))
    ensures IsQuota(response) <==> OutOfQuota(response)
  {
    hide HoldsObjects;
    if response.Payload? && response.items.Listed? {
      ObjectsInOrder(response.items.rows);
    }
  }

  // ----- one call

  // Keys only move forward.
  lemma {:induction false} CallKeyInRange(c: Config, key: nat, attempt: nat, script: nat -> Response, at: nat)
    requires key < c.keys
    ensures key <= Call(c, key, attempt, script, at).key < c.keys
    decreases c.keys - key, c.maxRetries - attempt
  {
    match Decide(c, key, attempt, script(at))
    case Stop(result) =>
    case NextKey => CallKeyInRange(c, key + 1, 0, script, at + 1);
    case Retry(pause) => CallKeyInRange(c, key, attempt + 1, script, at + 1);
  }

  // The script position counts the requests.
  lemma {:induction false} CallSends(c: Config, key: nat, attempt: nat, script: nat -> Response, at: nat)
    requires key < c.keys
    ensures
      var call := Call(c, key, attempt, script, at);
      call.at == at + Requests(call.events) > at
    decreases c.keys - key, c.maxRetries - attempt
  {
    match Decide(c, key, attempt, script(at))
    case Stop(result) =>
    case NextKey =>
      CallSends(c, key + 1, 0, script, at + 1);
    case Retry(pause) =>
      CallSends(c, key, attempt + 1, script, at + 1);
      PauseSendsNothing(Request(key, script(at)), pause, Call(c, key, attempt + 1, script, at + 1).events);
  }

  lemma PauseSendsNothing(request: Event, pause: seq<Event>, rest: seq<Event>)
    requires request.Request? && Requests(pause) == 0
    ensures Requests([request] + pause + rest) == 1 + Requests(rest)
  {
    RequestsConcat(pause, rest);
    assert [request] + pause + rest == [request] + (pause + rest);
  }

  // Each key visited costs at most the per-key budget.
  lemma {:induction false} CallBound(c: Config, key: nat, attempt: nat, script: nat -> Response, at: nat)
    requires key < c.keys && attempt < c.Budget()
    ensures
      var call := Call(c, key, attempt, script, at);
      call.key >= key && call.at - at <= Spend(call.key - key + 1, c.Budget()) - attempt
    decreases c.keys - key, c.maxRetries - attempt
  {
    match Decide(c, key, attempt, script(at))
    case Stop(result) =>
    case NextKey => CallBound(c, key + 1, 0, script, at + 1);
    case Retry(pause) => CallBound(c, key, attempt + 1, script, at + 1);
  }

  // n full budgets: n * budget, by addition.
  function Spend(n: nat, budget: nat): (total: nat)
    ensures n > 0 ==> total >= budget
  {
    if n == 0 then 0 else budget + Spend(n - 1, budget)
  }

  lemma {:induction false} SpendIsProduct(n: nat, budget: nat)
    ensures Spend(n, budget) == n * budget
  {
    if n > 0 {
      SpendIsProduct(n - 1, budget);
    }
  }

  lemma {:induction false} SpendAdds(a: nat, b: nat, budget: nat)
    ensures Spend(a + b, budget) == Spend(a, budget) + Spend(b, budget)
  {
    if b > 0 {
      SpendAdds(a, b - 1, budget);
    }
  }

  // What one call looks like from outside. No request follows a fatal error. With several keys a quota
  // error is followed at once by a request with the next key, or ends the call when the key was the last.
  ghost predicate EventFits(c: Config, call: CallOutcome, i: nat)
    requires i < |call.events|
  {
    var e := call.events[i];
    e.Request? ==>
      && (IsFatal(e.response) ==>
            i == |call.events| - 1 && call.result == Err(TourApiError(CodeOf(e.response), false)))
      && (OutOfQuota(e.response) && c.keys > 1 ==>
            if e.key + 1 < c.keys then
              i + 1 < |call.events| && call.events[i + 1].Request? && call.events[i + 1].key == e.key + 1
            else
              i == |call.events| - 1)
  }

  // The last event decides the result.
  ghost predicate EndFits(c: Config, call: CallOutcome) {
    && call.events != []
    && var last := call.events[|call.events| - 1];
       && last.Request?
       && last.key == call.key
       && (call.result.Ok? <==> IsFine(last.response))
       && (call.result.Ok? ==> HoldsRows(last.response.items, call.result.value))
       && ((call.result.Err? && call.result.error.AllKeysExhausted?) <==>
           (c.keys > 1 && last.key + 1 == c.keys && OutOfQuota(last.response)))
  }

  ghost predicate WellBehaved(c: Config, call: CallOutcome) {
    && EndFits(c, call)
    && forall i :: 0 <= i < |call.events| ==> EventFits(c, call, i)
  }

  lemma {:induction false} CallWellBehaved(c: Config, key: nat, attempt: nat, script: nat -> Response, at: nat)
    requires key < c.keys
    ensures
      var call := Call(c, key, attempt, script, at);
      WellBehaved(c, call) && call.events[0] == Request(key, script(at))
    decreases c.keys - key, c.maxRetries - attempt
  {
    var response := script(at);
    DecisionMeaning(c, key, attempt, response);
    match Decide(c, key, attempt, response)
    case Stop(result) =>
      var call := CallOutcome(result, key, at + 1, [Request(key, response)]);
      assert EndFits(c, call) && EventFits(c, call, 0);
    case NextKey =>
      CallWellBehaved(c, key + 1, 0, script, at + 1);
      PrependKeeps(c, Call(c, key + 1, 0, script, at + 1), key, response, []);
      assert [Request(key, response)] + [] == [Request(key, response)];
    case Retry(pause) =>
      CallWellBehaved(c, key, attempt + 1, script, at + 1);
      PrependKeeps(c, Call(c, key, attempt + 1, script, at + 1), key, response, pause);
  }

  lemma DecisionMeaning(c: Config, key: nat, attempt: nat, response: Response)
    requires key < c.keys
    ensures
      match Decide(c, key, attempt, response)
      case Stop(result) =>
        && (result.Ok? <==> IsFine(response))
        && (result.Ok? ==> HoldsRows(response.items, result.value))
        && (IsFatal(response) ==> result == Err(TourApiError(CodeOf(response), false)))
        && (OutOfQuota(response) ==> key + 1 == c.keys)
        && (result.Err? && result.error.AllKeysExhausted? <==> c.keys > 1 && OutOfQuota(response))
      case NextKey => OutOfQuota(response) && !IsFatal(response)
      case Retry(pause) =>
        && !IsFatal(response)
        && (OutOfQuota(response) ==> c.keys == 1)
        && forall i :: 0 <= i < |pause| ==> pause[i].Sleep?
  {
    hide Classify, IsQuota, HoldsRows;
    ByCode(response);
  }

  lemma PrependKeeps(c: Config, rest: CallOutcome, key: nat, response: Response, pause: seq<Event>)
    requires WellBehaved(c, rest)
    requires !IsFatal(response)
    requires forall i :: 0 <= i < |pause| ==> pause[i].Sleep?
    requires
      OutOfQuota(response) && c.keys > 1 ==>
        pause == [] && rest.events[0].Request? && rest.events[0].key == key + 1 && key + 1 < c.keys
    ensures WellBehaved(c, Prepend([Request(key, response)] + pause, rest))
  {
    var whole := Prepend([Request(key, response)] + pause, rest);
    var shift := 1 + |pause|;
    assert forall i {:trigger whole.events[i]} ::
      shift <= i < |whole.events| ==> whole.events[i] == rest.events[i - shift];
    forall i | 0 <= i < |whole.events|
      ensures EventFits(c, whole, i)
    {
      if i >= shift {
        assert EventFits(c, rest, i - shift);
      } else if i > 0 {
        assert whole.events[i] == pause[i - 1];
      }
    }
  }

  // ----- what each response does

  // Code 0000: the rows, as a list whatever their form, after this one request.
  lemma FineResponse(c: Config, key: nat, attempt: nat, script: nat -> Response, at: nat)
    requires key < c.keys && IsFine(script(at))
    ensures
      var call := Call(c, key, attempt, script, at);
      && call == CallOutcome(call.result, key, at + 1, [Request(key, script(at))])
      && call.result.Ok? && HoldsRows(script(at).items, call.result.value)
  {
    hide Classify, HoldsRows;
    ByCode(script(at));
  }

  // A fatal response ends the call there and then with its code.
  lemma FatalResponse(c: Config, key: nat, attempt: nat, script: nat -> Response, at: nat)
    requires key < c.keys && IsFatal(script(at))
    ensures
      Call(c, key, attempt, script, at) ==
      CallOutcome(Err(TourApiError(CodeOf(script(at)), false)), key, at + 1, [Request(key, script(at))])
  {
    hide Classify, HoldsRows;
    ByCode(script(at));
  }

  /** Out of quota with another key left, that key is tried at once with a fresh budget; on the last of several keys,
  all are reported exhausted. */
  lemma QuotaResponse(c: Config, key: nat, attempt: nat, script: nat -> Response, at: nat)
    requires key < c.keys && c.keys > 1 && OutOfQuota(script(at))
    ensures
      Call(c, key, attempt, script, at) ==
      if key + 1 < c.keys then Prepend([Request(key, script(at))], Call(c, key + 1, 0, script, at + 1))
      else CallOutcome(Err(AllKeysExhausted(CodeOf(script(at)))), key, at + 1, [Request(key, script(at))])
  {
    hide Classify, IsQuota, HoldsRows;
    ByCode(script(at));
  }

  // One sleep of this many seconds, or none at all.
  predicate Lasts(pause: seq<Event>, seconds: real) {
    if seconds == 0.0 then pause == []
    else |pause| == 1 && pause[0].Sleep? && pause[0].seconds == seconds
  }

  /** A failed request that is no quota error, or with a single key any failed request and code 22: tried again with the
  same key after a pause while attempts are left, otherwise reported. The pauses double from backoff_base on; after a
  quota error they are at least eight times backoff_base. */
  lemma RetriedResponse(c: Config, key: nat, attempt: nat, script: nat -> Response, at: nat)
    requires key < c.keys && (script(at).RequestFailed? || CodeOf(script(at)) == Code22)
    requires c.keys == 1 || !OutOfQuota(script(at))
    ensures
      var doubled, least := Doubled(c.backoffBase, attempt), c.backoffBase * 8.0;
      var pause := Pause(c.backoffBase, attempt, OutOfQuota(script(at)));
      && Lasts(pause, if OutOfQuota(script(at)) && doubled < least then least else doubled)
      && Call(c, key, attempt, script, at) ==
         if attempt < c.maxRetries then
           Prepend([Request(key, script(at))] + pause, Call(c, key, attempt + 1, script, at + 1))
         else CallOutcome(Err(TourApiError(CodeOf(script(at)), true)), key, at + 1, [Request(key, script(at))])
  {
    hide Pause, Lasts, Classify, IsQuota, HoldsRows;
    ByCode(script(at));
    PauseLasts(c.backoffBase, attempt, OutOfQuota(script(at)));
  }

  lemma PauseLasts(base: real, attempt: nat, quota: bool)
    ensures
      var doubled, least := Doubled(base, attempt), base * 8.0;
      Lasts(Pause(base, attempt, quota), if quota && doubled < least then least else doubled)
  {
  }

  // With a single key, a payload with code 429 is no reason to try again.
  lemma QuotaPayloadOfOneKey(c: Config, attempt: nat, script: nat -> Response, at: nat)
    requires c.keys == 1 && script(at).Payload? && script(at).resultCode == Code429
    ensures
      Call(c, 0, attempt, script, at) ==
      CallOutcome(Err(TourApiError(Code429, false)), 0, at + 1, [Request(0, script(at))])
  {
  }

  // Seconds slept in the course of the events.
  function Slept(events: seq<Event>): real {
    if events == [] then 0.0
    else (if events[0].Sleep? then events[0].seconds else 0.0) + Slept(events[1..])
  }

  lemma {:induction false} SleptConcat(a: seq<Event>, b: seq<Event>)
    ensures Slept(a + b) == Slept(a) + Slept(b)
  {
    if a == [] {
      assert a + b == b;
    } else {
      SleptConcat(a[1..], b);
      assert (a + b)[1..] == a[1..] + b;
    }
  }

  /** A call that only times out, from attempt number `attempt` on, sleeps backoff_base * (2^max_retries - 2^attempt)
  seconds in all. */
  lemma {:induction false} TimeoutsSleep(c: Config, key: nat, attempt: nat, script: nat -> Response, at: nat)
    requires key < c.keys && 0 <= attempt <= c.maxRetries
    requires forall i: nat :: i >= at ==> script(i) == RequestFailed(NoCode)
    ensures
      Slept(Call(c, key, attempt, script, at).events) ==
      Doubled(c.backoffBase, c.maxRetries) - Doubled(c.backoffBase, attempt)
    decreases c.maxRetries - attempt
  {
    hide Call, Pause, Lasts;
    RetriedResponse(c, key, attempt, script, at);
    var request := Request(key, script(at));
    if attempt < c.maxRetries {
      var rest := Call(c, key, attempt + 1, script, at + 1).events;
      var pause := Pause(c.backoffBase, attempt, false);
      TimeoutsSleep(c, key, attempt + 1, script, at + 1);
      SleptConcat([request] + pause, rest);
      SleptOnce(request, pause, Doubled(c.backoffBase, attempt));
    } else {
      assert Slept([request]) == 0.0;
    }
  }

  lemma SleptOnce(request: Event, pause: seq<Event>, seconds: real)
    requires request.Request? && Lasts(pause, seconds)
    ensures Slept([request] + pause) == seconds
  {
    SleptConcat([request], pause);
  }

  // ----- the whole life of a client

  datatype Session = Session(key: nat, at: nat, events: seq<Event>)

  function RunCalls(c: Config, script: nat -> Response, calls: nat): (s: Session)
    requires 0 < c.keys
    ensures s.key < c.keys
  {
    if calls == 0 then Session(0, 0, [])
    else
      var before := RunCalls(c, script, calls - 1);
      CallKeyInRange(c, before.key, 0, script, before.at);
      var call := Call(c, before.key, 0, script, before.at);
      Session(call.key, call.at, before.events + call.events)
  }

  // N calls of a K-key client send at most (N + K - 1) * (max_retries + 1) requests: a rotation is paid
  // for once in the client's life, however many calls are made.
  lemma AmortisedRequestBound(c: Config, script: nat -> Response, calls: nat)
    requires 0 < c.keys
    ensures Requests(RunCalls(c, script, calls).events) <= (calls + c.keys - 1) * c.Budget()
  {
    hide RunCalls, Spend, Requests;
    var key := RunCalls(c, script, calls).key;
    SessionSpend(c, script, calls);
    SpendAdds(calls + key, c.keys - 1 - key, c.Budget());
    SpendIsProduct(calls + c.keys - 1, c.Budget());
  }

  lemma {:induction false} SessionSpend(c: Config, script: nat -> Response, calls: nat)
    requires 0 < c.keys
    ensures
      var s := RunCalls(c, script, calls);
      s.at == Requests(s.events) <= Spend(calls + s.key, c.Budget())
  {
    hide Call, Requests, Spend;
    if calls > 0 {
      SessionSpend(c, script, calls - 1);
      var before := RunCalls(c, script, calls - 1);
      var at := before.at;
      CallBound(c, before.key, 0, script, at);
      CallSends(c, before.key, 0, script, at);
      var call := Call(c, before.key, 0, script, at);
      RequestsConcat(before.events, call.events);
      SpendAdds(calls - 1 + before.key, call.key - before.key + 1, c.Budget());
    } else {
      NothingSent();
    }
  }

  lemma NothingSent()
    ensures Requests([]) == 0
  {
  }

  // A server that times out from here on makes a call spend the rest of its budget.
  lemma {:induction false} TimeoutsSpendTheBudget(c: Config, key: nat, attempt: nat, script: nat -> Response, at: nat)
    requires key < c.keys && attempt < c.Budget()
    requires forall i: nat :: i >= at ==> script(i) == RequestFailed(NoCode)
    ensures
      var call := Call(c, key, attempt, script, at);
      call.at == at + c.Budget() - attempt && call.key == key
    decreases c.maxRetries - attempt
  {
    if attempt < c.maxRetries {
      TimeoutsSpendTheBudget(c, key, attempt + 1, script, at + 1);
      assert Decide(c, key, attempt, script(at)) == Retry(Pause(c.backoffBase, attempt, false));
    }
  }

  // ----- the bound is attained

  // The last request of the budget of one of the first `keys` keys.
  predicate EndsABudget(keys: nat, budget: nat, i: nat) {
    keys > 0 && (i + 1 == Spend(keys, budget) || EndsABudget(keys - 1, budget, i))
  }

  // Timeouts, and a quota error on the last attempt with each key but the last.
  function WorstScript(c: Config): nat -> Response
    requires 0 < c.keys
  {
    (i: nat) => if EndsABudget(c.keys - 1, c.Budget(), i) then Payload(Code22, NoItems) else RequestFailed(NoCode)
  }

  lemma SpendGrows(a: nat, b: nat, budget: nat)
    requires a <= b
    ensures Spend(a, budget) <= Spend(b, budget)
    ensures a < b ==> Spend(a, budget) + budget <= Spend(b, budget)
  {
    SpendAdds(a, b - a, budget);
  }

  lemma {:induction false} EndsABudgetExactly(keys: nat, budget: nat, key: nat, attempt: nat)
    requires attempt < budget
    ensures EndsABudget(keys, budget, Spend(key, budget) + attempt) <==> key < keys && attempt + 1 == budget
  {
    if keys > 0 {
      EndsABudgetExactly(keys - 1, budget, key, attempt);
      if key < keys {
        SpendGrows(key, keys - 1, budget);
      } else {
        SpendGrows(keys, key, budget);
      }
    }
  }

  lemma {:induction false} NoneBehindTheKeys(keys: nat, budget: nat, i: nat)
    requires i >= Spend(keys, budget)
    ensures !EndsABudget(keys, budget, i)
  {
    if keys > 0 {
      NoneBehindTheKeys(keys - 1, budget, i);
    }
  }

  // The first call goes through all keys and spends the budget of each.
  lemma {:induction false} WorstFirstCall(c: Config, key: nat, attempt: nat)
    requires key < c.keys && attempt < c.Budget()
    ensures
      var call := Call(c, key, attempt, WorstScript(c), Spend(key, c.Budget()) + attempt);
      call.key == c.keys - 1 && call.at == Spend(c.keys, c.Budget())
    decreases c.keys - key, c.Budget() - attempt
  {
    hide Decide, EndsABudget, Requests, Pause;
    var budget, script, at := c.Budget(), WorstScript(c), Spend(key, c.Budget()) + attempt;
    if key + 1 == c.keys {
      TimeoutsBehindTheKeys(c, at);
      TimeoutsSpendTheBudget(c, key, attempt, script, at);
    } else {
      WorstDecision(c, key, attempt);
      if attempt + 1 == budget {
        WorstFirstCall(c, key + 1, 0);
      } else {
        WorstFirstCall(c, key, attempt + 1);
      }
    }
  }

  lemma TimeoutsBehindTheKeys(c: Config, at: nat)
    requires 0 < c.keys && at >= Spend(c.keys - 1, c.Budget())
    ensures forall i: nat :: i >= at ==> WorstScript(c)(i) == RequestFailed(NoCode)
  {
    hide EndsABudget, Spend;
    forall i: nat | i >= at
      ensures WorstScript(c)(i) == RequestFailed(NoCode)
    {
      NoneBehindTheKeys(c.keys - 1, c.Budget(), i);
    }
  }

  // Before the last key: retries while the budget lasts, then the next key.
  lemma WorstDecision(c: Config, key: nat, attempt: nat)
    requires key + 1 < c.keys && attempt < c.Budget()
    ensures Decide(c, key, attempt, WorstScript(c)(Spend(key, c.Budget()) + attempt)) ==
            if attempt + 1 == c.Budget() then NextKey else Retry(Pause(c.backoffBase, attempt, false))
  {
    hide EndsABudget, Spend, Pause, Requests;
    EndsABudgetExactly(c.keys - 1, c.Budget(), key, attempt);
  }

  // Every further call spends one more budget on the last key.
  lemma {:induction false} WorstSession(c: Config, calls: nat)
    requires 0 < c.keys && calls > 0
    ensures
      var s := RunCalls(c, WorstScript(c), calls);
      s.key == c.keys - 1 && s.at == Spend(calls + c.keys - 1, c.Budget())
  {
    hide Call, WorstScript;
    var script := WorstScript(c);
    if calls == 1 {
      assert RunCalls(c, script, 0) == Session(0, 0, []);
      WorstFirstCall(c, 0, 0);
    } else {
      WorstSession(c, calls - 1);
      var before := RunCalls(c, script, calls - 1);
      SpendGrows(c.keys - 1, calls + c.keys - 2, c.Budget());
      TimeoutsBehindTheKeys(c, before.at);
      TimeoutsSpendTheBudget(c, before.key, 0, script, before.at);
    }
  }

  // For any number of keys and calls some script takes exactly as many requests as the bound allows.
  lemma AmortisedBoundIsAttained(c: Config, calls: nat)
    requires 0 < c.keys && calls > 0
    ensures Requests(RunCalls(c, WorstScript(c), calls).events) == (calls + c.keys - 1) * c.Budget()
  {
    SessionSpend(c, WorstScript(c), calls);
    WorstSession(c, calls);
    SpendIsProduct(calls + c.keys - 1, c.Budget());
  }
}
