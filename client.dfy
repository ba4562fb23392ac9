/** The HTTP client's rate-limit bookkeeping: one RateLimiter per endpoint,
    created on first use, updated from every response's headers, and the
    dispatch on the response status. A response is supplied by the caller;
    the transport and the recursive re-issue after a 429 are not modelled, so
    one call here is one attempt. */
module PixelsClient {
  import opened Wrappers
  import PyParse
  import Images

  const RatelimitCode := 429
  const SuccessCode := 200

  const RemainingKey := "requests-remaining"
  const LimitKey := "requests-limit"
  const PeriodKey := "requests-period"
  const ResetKey := "requests-reset"
  const CooldownKey := "Cooldown-Reset"

  /** A header name with its ASCII letters in lower case: the key under which
      requests' CaseInsensitiveDict files and looks up a header. */
  function FoldName(name: string): string
  {
    seq(|name|, i requires 0 <= i < |name| => if 'A' <= name[i] <= 'Z' then (name[i] as int + 32) as char else name[i])
  }

  lemma FoldNameIdempotent(name: string)
    ensures FoldName(FoldName(name)) == FoldName(name)
  {
  }

  /** Response headers as requests hands them over: a case-insensitive
      dictionary, held here under folded names. */
  type Headers = h: map<string, string> | forall name :: name in h ==> FoldName(name) == name
    witness map[]

  /** The headers of a response whose header lines are `raw`, in order:
      names are folded, and a repeated header's values are joined with ", ",
      as urllib3 does before requests wraps them. */
  function HeadersFrom(raw: seq<(string, string)>): Headers
  {
    if raw == [] then map[]
    else
      var h := HeadersFrom(raw[..|raw| - 1]);
      var name := FoldName(raw[|raw| - 1].0);
      var value := raw[|raw| - 1].1;
      FoldNameIdempotent(raw[|raw| - 1].0);
      h[name := if name in h then h[name] + ", " + value else value]
  }

  /** headers.get(name) succeeds, whatever the case of `name`. */
  predicate HasHeader(headers: Headers, name: string)
  {
    FoldName(name) in headers
  }

  function Header(headers: Headers, name: string): string
    requires HasHeader(headers, name)
  {
    headers[FoldName(name)]
  }

  /** A header is present exactly when some line of the response carries its
      name in some case. */
  lemma {:induction false} HeadersFromNames(raw: seq<(string, string)>, name: string)
    ensures HasHeader(HeadersFrom(raw), name) <==>
      exists i :: 0 <= i < |raw| && FoldName(raw[i].0) == FoldName(name)
  {
    if raw != [] {
      var prefix := raw[..|raw| - 1];
      HeadersFromNames(prefix, name);
      if exists i :: 0 <= i < |prefix| && FoldName(prefix[i].0) == FoldName(name) {
        var i :| 0 <= i < |prefix| && FoldName(prefix[i].0) == FoldName(name);
        assert raw[i] == prefix[i];
      }
      if exists i :: 0 <= i < |raw| && FoldName(raw[i].0) == FoldName(name) {
        var i :| 0 <= i < |raw| && FoldName(raw[i].0) == FoldName(name);
        if i < |prefix| {
          assert raw[i] == prefix[i];
        }
      }
    }
  }

  /** A header sent once is found under any spelling of its name. */
  lemma HeaderFoundInAnyCase(raw: seq<(string, string)>, name: string, value: string, key: string)
    requires FoldName(name) == FoldName(key)
    requires forall i :: 0 <= i < |raw| ==> FoldName(raw[i].0) != FoldName(key)
    ensures HasHeader(HeadersFrom(raw + [(name, value)]), key)
    ensures Header(HeadersFrom(raw + [(name, value)]), key) == value
  {
    HeadersFromNames(raw, key);
    assert (raw + [(name, value)])[..|raw|] == raw;
  }

  /** A response as the client sees it: status, headers and decoded body. */
  datatype Response<T> = Response(status: int, headers: Headers, body: T)

  /** What one attempt at a request comes to. */
  datatype Attempt<T> =
    | Retry(pauses: seq<real>)    // 429: the limiter's pause, then the same request again
    | Success(value: T)           // 200
    | RaiseForStatus(status: int) // any other status is handed to raise_for_status()
    | Raised(error: PyError)      // update() itself raised

  /** The fields of one RateLimitter, as a value. */
  datatype LimiterState = LimiterState(
    requestsRemaining: Option<string>,
    requestsLimit: Option<string>,
    requestsPeriod: Option<string>,
    requestsReset: Option<string>,
    cooldown: Option<int>)

  const NewLimiterState := LimiterState(None, None, None, None, None)

  /** A field after an update: the header's value if the header is present. */
  function Latest(headers: Headers, key: string, previous: Option<string>): Option<string>
  {
    if HasHeader(headers, key) then Some(Header(headers, key)) else previous
  }

  /** update() raises ValueError when Cooldown-Reset is not an integer. */
  predicate UpdateRaises(headers: Headers)
  {
    HasHeader(headers, CooldownKey) && PyParse.ParseInt(Header(headers, CooldownKey)).Err?
  }

  /** The fields after update(headers). The four request fields are assigned
      before int() can raise, so they are updated even when it does. */
  function AfterUpdate(s: LimiterState, headers: Headers): LimiterState
  {
    LimiterState(
      Latest(headers, RemainingKey, s.requestsRemaining),
      Latest(headers, LimitKey, s.requestsLimit),
      Latest(headers, PeriodKey, s.requestsPeriod),
      Latest(headers, ResetKey, s.requestsReset),
      if HasHeader(headers, CooldownKey) && PyParse.ParseInt(Header(headers, CooldownKey)).Ok?
      then Some(PyParse.ParseInt(Header(headers, CooldownKey)).value) else s.cooldown)
  }

  /** The sleeps pause() requests: the cooldown, when one is known. */
  function PauseSleeps(s: LimiterState): (sleeps: seq<real>)
    ensures |sleeps| <= 1
    ensures sleeps == [] <==> s.cooldown.None?
    ensures s.cooldown.Some? ==> sleeps == [s.cooldown.value as real]
  {
    if s.cooldown.Some? then [s.cooldown.value as real] else []
  }

  /** One attempt at a request: update the endpoint's limiter from the
      headers, then dispatch on the status. */
  function AttemptOutcome<T>(s: LimiterState, response: Response<T>): Attempt<T>
  {
    if UpdateRaises(response.headers) then Raised(ValueError)
    else if response.status == RatelimitCode then Retry(PauseSleeps(AfterUpdate(s, response.headers)))
    else if response.status == SuccessCode then Success(response.body)
    else RaiseForStatus(response.status)
  }

  /** Once a cooldown is known, no update clears it. */
  lemma CooldownNeverCleared(s: LimiterState, headers: Headers)
    requires s.cooldown.Some?
    ensures AfterUpdate(s, headers).cooldown.Some?
  {
  }

  /** Updating twice with the same headers is the same as updating once. */
  lemma UpdateIdempotent(s: LimiterState, headers: Headers)
    ensures AfterUpdate(AfterUpdate(s, headers), headers) == AfterUpdate(s, headers)
  {
  }

  /** Last write wins: two successive updates are one update with the merged
      headers, the later response's values taking precedence, provided the
      later response does not carry a malformed Cooldown-Reset. */
  lemma UpdatesMerge(s: LimiterState, first: Headers, second: Headers)
    requires !UpdateRaises(second)
    ensures AfterUpdate(AfterUpdate(s, first), second) == AfterUpdate(s, first + second)
  {
  }

  /** Headers without rate-limit keys leave a limiter as it was. */
  lemma UpdateWithoutRateHeaders(s: LimiterState, headers: Headers)
    requires !HasHeader(headers, RemainingKey) && !HasHeader(headers, LimitKey) && !HasHeader(headers, PeriodKey)
    requires !HasHeader(headers, ResetKey) && !HasHeader(headers, CooldownKey)
    ensures AfterUpdate(s, headers) == s
  {
  }

  /** A 429's own Cooldown-Reset is what the following pause sleeps for,
      because the update comes before the status is examined. */
  lemma RejectionPausesForItsCooldown<T>(s: LimiterState, response: Response<T>, n: nat)
    requires response.status == RatelimitCode
    requires HasHeader(response.headers, CooldownKey) && Header(response.headers, CooldownKey) == PyParse.NatToString(n)
    ensures AttemptOutcome(s, response) == Retry([n as real])
  {
    PyParse.ParseIntOfNatToString(n);
  }

  /** A 429 without a cooldown, on a limiter that never saw one, retries at once. */
  lemma RejectionWithoutCooldownRetriesAtOnce<T>(s: LimiterState, response: Response<T>)
    requires response.status == RatelimitCode && s.cooldown.None? && !HasHeader(response.headers, CooldownKey)
    ensures AttemptOutcome(s, response) == Retry([])
  {
  }

  /** Status dispatch once the headers are well formed: 200 is the body,
      429 a retry, everything else raise_for_status(). */
  lemma StatusDispatch<T>(s: LimiterState, response: Response<T>)
    requires !UpdateRaises(response.headers)
    ensures response.status == SuccessCode <==> AttemptOutcome(s, response) == Success(response.body)
    ensures response.status == RatelimitCode <==> AttemptOutcome(s, response).Retry?
    ensures response.status != SuccessCode && response.status != RatelimitCode <==>
      AttemptOutcome(s, response) == RaiseForStatus(response.status)
  {
  }

  /** One RateLimitter object. */
  class RateLimiter {
    const endpoint: string
    var requestsRemaining: Option<string>
    var requestsLimit: Option<string>
    var requestsPeriod: Option<string>
    var requestsReset: Option<string>
    var cooldown: Option<int>

    function State(): LimiterState
      reads this
    {
      LimiterState(requestsRemaining, requestsLimit, requestsPeriod, requestsReset, cooldown)
    }

    /** A new limiter knows nothing yet. */
    constructor (endpoint: string)
      ensures this.endpoint == endpoint
      ensures requestsRemaining == None && requestsLimit == None && requestsPeriod == None
      ensures requestsReset == None && cooldown == None
      ensures State() == NewLimiterState
    {
      this.endpoint := endpoint;
      requestsRemaining := None;
      requestsLimit := None;
      requestsPeriod := None;
      requestsReset := None;
      cooldown := None;
    }

    /** update(headers): each present header overwrites its field; Cooldown-Reset
        is converted with int(), which raises on a malformed value. */
    method Update(headers: Headers) returns (r: Result<()>)
      modifies this
      ensures State() == AfterUpdate(old(State()), headers)
      ensures r.Err? <==> UpdateRaises(headers)
      ensures r.Err? ==> r.error == ValueError
    {
      ghost var before := State();
      if HasHeader(headers, RemainingKey) {
        requestsRemaining := Some(Header(headers, RemainingKey));
      }
      if HasHeader(headers, LimitKey) {
        requestsLimit := Some(Header(headers, LimitKey));
      }
      if HasHeader(headers, PeriodKey) {
        requestsPeriod := Some(Header(headers, PeriodKey));
      }
      if HasHeader(headers, ResetKey) {
        requestsReset := Some(Header(headers, ResetKey));
      }
      assert State() == AfterUpdate(before, headers).(cooldown := before.cooldown);
      if HasHeader(headers, CooldownKey) {
        var parsed := PyParse.ParseInt(Header(headers, CooldownKey));
        if parsed.Err? {
          return Err(ValueError);
        }
        cooldown := Some(parsed.value);
      }
      r := Ok(());
    }

    /** pause(): the sleeps requested, exactly `cooldown` seconds if a cooldown
        is known and none otherwise. */
    method Pause() returns (sleeps: seq<real>)
      ensures cooldown.Some? ==> sleeps == [cooldown.value as real]
      ensures cooldown.None? ==> sleeps == []
    {
      sleeps := [];
      if cooldown.Some? {
        sleeps := sleeps + [cooldown.value as real];
      }
    }
  }

  /** The body of a successful /get_size response. */
  datatype SizeJson = SizeJson(width: int, height: int)

  /** The body of a successful /get_pixel response. */
  datatype PixelJson = PixelJson(rgb: string)

  class Client {
    var rateLimiters: map<string, RateLimiter>

    /** Each limiter is filed under its own endpoint, so no two endpoints share one. */
    ghost predicate Valid()
      reads this, rateLimiters.Values
    {
      forall e :: e in rateLimiters ==> rateLimiters[e].endpoint == e
    }

    constructor ()
      ensures Valid() && rateLimiters == map[]
    {
      rateLimiters := map[];
    }

    /** The limiter state an attempt on `endpoint` starts from. */
    function LimiterStateOf(endpoint: string): LimiterState
      reads this, rateLimiters.Values
    {
      if endpoint in rateLimiters then rateLimiters[endpoint].State() else NewLimiterState
    }

    /** The part every request method shares: create the endpoint's limiter if
        it is missing, update it from the response, dispatch on the status. */
    method Dispatch<T>(endpoint: string, response: Response<T>) returns (a: Attempt<T>)
      requires Valid()
      modifies this, rateLimiters.Values
      ensures Valid()
      ensures a == AttemptOutcome(old(LimiterStateOf(endpoint)), response)
      ensures rateLimiters.Keys == old(rateLimiters.Keys) + {endpoint}
      ensures endpoint in old(rateLimiters) ==> rateLimiters[endpoint] == old(rateLimiters[endpoint])
      ensures endpoint !in old(rateLimiters) ==> fresh(rateLimiters[endpoint])
      ensures rateLimiters[endpoint].State() == AfterUpdate(old(LimiterStateOf(endpoint)), response.headers)
      ensures forall e :: e in old(rateLimiters) && e != endpoint ==>
        rateLimiters[e] == old(rateLimiters[e]) && rateLimiters[e].State() == old(rateLimiters[e].State())
    {
      if endpoint !in rateLimiters {
        var created := new RateLimiter(endpoint);
        rateLimiters := rateLimiters[endpoint := created];
      }
      var limiter := rateLimiters[endpoint];
      var updated := limiter.Update(response.headers);
      if updated.Err? {
        return Raised(updated.error);
      }
      if response.status == RatelimitCode {
        var sleeps := limiter.Pause();
        a := Retry(sleeps);
      } else if response.status == SuccessCode {
        a := Success(response.body);
      } else {
        a := RaiseForStatus(response.status);
      }
    }

    /** get_pixel: the pixel's hex colour from the JSON body. */
    method GetPixel(response: Response<PixelJson>) returns (a: Attempt<string>)
      requires Valid()
      modifies this, rateLimiters.Values
      ensures Valid()
      ensures var b := AttemptOutcome(old(LimiterStateOf("/get_pixel")), response);
        a == (if b.Success? then Success(b.value.rgb)
              else if b.Retry? then Retry(b.pauses)
              else if b.RaiseForStatus? then RaiseForStatus(b.status) else Raised(b.error))
      ensures "/get_pixel" in rateLimiters
      ensures rateLimiters["/get_pixel"].State() == AfterUpdate(old(LimiterStateOf("/get_pixel")), response.headers)
      ensures "/get_pixel" in old(rateLimiters) ==> rateLimiters["/get_pixel"] == old(rateLimiters["/get_pixel"])
      ensures rateLimiters.Keys == old(rateLimiters.Keys) + {"/get_pixel"}
      ensures forall e :: e in old(rateLimiters) && e != "/get_pixel" ==>
        rateLimiters[e] == old(rateLimiters[e]) && rateLimiters[e].State() == old(rateLimiters[e].State())
    {
      var b := Dispatch("/get_pixel", response);
      a := match b
        case Success(j) => Success(j.rgb)
        case Retry(p) => Retry(p)
        case RaiseForStatus(st) => RaiseForStatus(st)
        case Raised(e) => Raised(e);
    }

    /** get_pixels: the raw canvas bytes. */
    method GetPixels(response: Response<seq<Images.Byte>>) returns (a: Attempt<seq<Images.Byte>>)
      requires Valid()
      modifies this, rateLimiters.Values
      ensures Valid()
      ensures a == AttemptOutcome(old(LimiterStateOf("/get_pixels")), response)
      ensures "/get_pixels" in rateLimiters
      ensures rateLimiters["/get_pixels"].State() == AfterUpdate(old(LimiterStateOf("/get_pixels")), response.headers)
      ensures "/get_pixels" in old(rateLimiters) ==> rateLimiters["/get_pixels"] == old(rateLimiters["/get_pixels"])
      ensures rateLimiters.Keys == old(rateLimiters.Keys) + {"/get_pixels"}
      ensures forall e :: e in old(rateLimiters) && e != "/get_pixels" ==>
        rateLimiters[e] == old(rateLimiters[e]) && rateLimiters[e].State() == old(rateLimiters[e].State())
    {
      a := Dispatch("/get_pixels", response);
    }

    /** get_size: the pair (height, width), height first. */
    method GetSize(response: Response<SizeJson>) returns (a: Attempt<(int, int)>)
      requires Valid()
      modifies this, rateLimiters.Values
      ensures Valid()
      ensures var b := AttemptOutcome(old(LimiterStateOf("/get_size")), response);
        a == (if b.Success? then Success((response.body.height, response.body.width))
              else if b.Retry? then Retry(b.pauses)
              else if b.RaiseForStatus? then RaiseForStatus(b.status) else Raised(b.error))
      ensures "/get_size" in rateLimiters
      ensures rateLimiters["/get_size"].State() == AfterUpdate(old(LimiterStateOf("/get_size")), response.headers)
      ensures "/get_size" in old(rateLimiters) ==> rateLimiters["/get_size"] == old(rateLimiters["/get_size"])
      ensures rateLimiters.Keys == old(rateLimiters.Keys) + {"/get_size"}
      ensures forall e :: e in old(rateLimiters) && e != "/get_size" ==>
        rateLimiters[e] == old(rateLimiters[e]) && rateLimiters[e].State() == old(rateLimiters[e].State())
    {
      var b := Dispatch("/get_size", response);
      a := match b
        case Success(j) => Success((j.height, j.width))
        case Retry(p) => Retry(p)
        case RaiseForStatus(st) => RaiseForStatus(st)
        case Raised(e) => Raised(e);
    }

    /** set_pixel: success carries no value (the method returns None). */
    method SetPixel(response: Response<string>) returns (a: Attempt<()>)
      requires Valid()
      modifies this, rateLimiters.Values
      ensures Valid()
      ensures var b := AttemptOutcome(old(LimiterStateOf("/set_pixel")), response);
        a == (if b.Success? then Success(())
              else if b.Retry? then Retry(b.pauses)
              else if b.RaiseForStatus? then RaiseForStatus(b.status) else Raised(b.error))
      ensures "/set_pixel" in rateLimiters
      ensures rateLimiters["/set_pixel"].State() == AfterUpdate(old(LimiterStateOf("/set_pixel")), response.headers)
      ensures "/set_pixel" in old(rateLimiters) ==> rateLimiters["/set_pixel"] == old(rateLimiters["/set_pixel"])
      ensures rateLimiters.Keys == old(rateLimiters.Keys) + {"/set_pixel"}
      ensures forall e :: e in old(rateLimiters) && e != "/set_pixel" ==>
        rateLimiters[e] == old(rateLimiters[e]) && rateLimiters[e].State() == old(rateLimiters[e].State())
    {
      var b := Dispatch("/set_pixel", response);
      a := match b
        case Success(_) => Success(())
        case Retry(p) => Retry(p)
        case RaiseForStatus(st) => RaiseForStatus(st)
        case Raised(e) => Raised(e);
    }
  }
}
