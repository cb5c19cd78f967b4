/** The multi-host request dispatcher of src/utils/api.js: `tryFetch`,
    `checkServerAvailability` and `apiRequest`.

    The network is an oracle: a total function from a fetch -- its serial
    number within the call and the request it sends -- to the reply it
    produces, each reply carrying the milliseconds it takes to settle. The
    serial number counts every `fetch` one `apiRequest` call fires, pings
    included, from 0; so a host listed twice is asked twice, and may answer
    differently each time. Time is a natural-number clock that starts at 0
    when `apiRequest` is entered. The request's single deadline promise is
    created there, so every attempt of one call -- and the probe before them
    -- draws on the same 15000 ms budget; the probe additionally races its
    own 5000 ms one. A fetch wins its race when it settles strictly before
    the deadline. The process-wide "last successful URL" cell is explicit
    state. */
module Dispatcher {
  import opened Wrappers
  import opened Lists
  import opened Text
  import opened JsValue
  import ApiConfig

  const FetchTimeoutMs: nat := 15000
  const ProbeTimeoutMs: nat := 5000

  const TimeoutMessage: string := "Tiempo de espera agotado"
  const InvalidFormatMessage: string := "Formato de respuesta inválido"
  const NoServerMessage: string := "No se pudo conectar a ningún servidor"

  datatype Method = Get | Post

  /** What `fetch` is called with: method, full URL and JSON body. */
  datatype HttpRequest = HttpRequest(verb: Method, url: string, body: Option<Value>)

  /** What a caller hands `apiRequest`: method, endpoint path and JSON body. */
  datatype ApiCall = ApiCall(verb: Method, endpoint: string, body: Option<Value>)

  /** How `fetch` settles: it rejects (`Network request failed`, ...), or it
      resolves with a status, the body text, and the body parsed as JSON
      (None when `JSON.parse` would throw). */
  datatype Reply =
    | Rejected(afterMs: nat, message: string)
    | Answered(afterMs: nat, status: nat, text: string, json: Option<Value>)

  /** The reply to the fetch with the given serial number and request. */
  type Network = (nat, HttpRequest) -> Reply

  /** `${base}${endpoint}` with the call's options. */
  function At(host: string, call: ApiCall): HttpRequest
  {
    HttpRequest(call.verb, host + call.endpoint, call.body)
  }

  /** The probe's `GET ${base}/api/ping`. */
  function PingAt(host: string): HttpRequest
  {
    HttpRequest(Get, host + ApiConfig.Ping, None)
  }

  /** `response.ok`. */
  predicate IsOkStatus(status: nat)
  {
    200 <= status <= 299
  }

  function HttpErrorMessage(status: nat, text: string): string
  {
    "Error HTTP " + Decimal(status) + ": " + text
  }

  /** The fetch settles before the deadline fires, so it wins the race. */
  predicate InTime(reply: Reply, now: nat, deadline: nat)
  {
    now + reply.afterMs < deadline
  }

  /** The clock once the race is decided: when the fetch settles, or when the
      deadline fires (at once if it has already fired). */
  function Settle(reply: Reply, now: nat, deadline: nat): (t: nat)
    ensures t >= now
  {
    if InTime(reply, now, deadline) then now + reply.afterMs
    else if now < deadline then deadline
    else now
  }

  datatype Step = Step(result: Result<Value>, now: nat)

  /** `tryFetch`: one attempt, fetch number `serial`, raced against the
      shared deadline. */
  function TryFetch(net: Network, serial: nat, request: HttpRequest, now: nat, deadline: nat): (s: Step)
    ensures s.now >= now
    ensures !InTime(net(serial, request), now, deadline) ==> s.result == Failure(TimeoutMessage)
    ensures now >= deadline ==> s == Step(Failure(TimeoutMessage), now)
    ensures var reply := net(serial, request);
            s.result.Success? <==>
              InTime(reply, now, deadline) && reply.Answered? && IsOkStatus(reply.status) && reply.json.Some?
    ensures s.result.Success? ==> s.result.value == net(serial, request).json.value
  {
    var reply := net(serial, request);
    var t := Settle(reply, now, deadline);
    if !InTime(reply, now, deadline) then Step(Failure(TimeoutMessage), t)
    else match reply
      case Rejected(_, message) => Step(Failure(message), t)
      case Answered(_, status, text, json) =>
        if !IsOkStatus(status) then Step(Failure(HttpErrorMessage(status, text)), t)
        else if json.None? then Step(Failure(InvalidFormatMessage), t)
        else Step(Success(json.value), t)
  }

  /** A non-ok answer fails with the HTTP status and body text; an ok answer
      whose body does not parse fails with the invalid-format message. */
  lemma TryFetchErrors(net: Network, serial: nat, request: HttpRequest, now: nat, deadline: nat)
    requires InTime(net(serial, request), now, deadline) && net(serial, request).Answered?
    ensures var r := net(serial, request);
            !IsOkStatus(r.status) ==>
              TryFetch(net, serial, request, now, deadline).result == Failure(HttpErrorMessage(r.status, r.text))
    ensures var r := net(serial, request);
            IsOkStatus(r.status) && r.json.None? ==>
              TryFetch(net, serial, request, now, deadline).result == Failure(InvalidFormatMessage)
  {
  }

  // ---------------------------------------------------------------------
  // Walking a list of hosts

  /** Where a walk over hosts ends: the result, the host that answered
      (None on failure), how many requests were fired, and the clock. */
  datatype Outcome = Outcome(result: Result<Value>, host: Option<string>, attempts: nat, now: nat)

  function Later(o: Outcome, k: nat): Outcome
  {
    o.(attempts := o.attempts + k)
  }

  /** Try `hosts` in order, stopping at the first success; the first attempt
      is fetch number `sent`. `error` is the error to throw if nothing
      succeeds; every failure replaces it. */
  function Walk(net: Network, hosts: seq<string>, call: ApiCall, sent: nat, now: nat, deadline: nat,
                error: string): (o: Outcome)
    ensures o.now >= now
    ensures o.result.Success? <==> o.host.Some?
    ensures o.result.Success? ==> 1 <= o.attempts <= |hosts| && o.host == Some(hosts[o.attempts - 1])
    ensures o.result.Failure? ==> o.attempts == |hosts|
    decreases |hosts|
  {
    if hosts == [] then Outcome(Failure(error), None, 0, now)
    else
      var s := TryFetch(net, sent, At(hosts[0], call), now, deadline);
      if s.result.Success? then Outcome(s.result, Some(hosts[0]), 1, s.now)
      else Later(Walk(net, hosts[1..], call, sent + 1, s.now, deadline, s.result.error), 1)
  }

  /** What follows a walk over a first list of hosts: its outcome if it
      succeeded, otherwise the walk over `rest` from where it stopped, with
      its last error and the next fetch number. */
  function Continue(net: Network, o: Outcome, rest: seq<string>, call: ApiCall, sent: nat, deadline: nat): Outcome
  {
    if o.result.Success? then o
    else Later(Walk(net, rest, call, sent + o.attempts, o.now, deadline, o.result.error), o.attempts)
  }

  /** Walking `h1 + h2` is walking `h1` and, only if that failed, walking
      `h2` from where it stopped, with its last error and the next fetch
      number. */
  lemma {:induction false} WalkAppend(net: Network, h1: seq<string>, h2: seq<string>, call: ApiCall,
                                      sent: nat, now: nat, deadline: nat, error: string)
    ensures Walk(net, h1 + h2, call, sent, now, deadline, error) ==
            Continue(net, Walk(net, h1, call, sent, now, deadline, error), h2, call, sent, deadline)
    decreases |h1|
  {
    if h1 == [] {
      assert h1 + h2 == h2;
      var w := Walk(net, h2, call, sent, now, deadline, error);
      assert Later(w, 0) == w;
    } else {
      assert (h1 + h2)[0] == h1[0];
      assert (h1 + h2)[1..] == h1[1..] + h2;
      var s := TryFetch(net, sent, At(h1[0], call), now, deadline);
      if s.result.Failure? {
        WalkAppend(net, h1[1..], h2, call, sent + 1, s.now, deadline, s.result.error);
        ContinueLater(net, Walk(net, h1[1..], call, sent + 1, s.now, deadline, s.result.error), h2, call, sent, deadline);
      }
    }
  }

  /** A walk one attempt longer continues one fetch number later. */
  lemma ContinueLater(net: Network, o: Outcome, rest: seq<string>, call: ApiCall, sent: nat, deadline: nat)
    ensures Continue(net, Later(o, 1), rest, call, sent, deadline) ==
            Later(Continue(net, o, rest, call, sent + 1, deadline), 1)
  {
    if o.result.Failure? {
      var w := Walk(net, rest, call, sent + 1 + o.attempts, o.now, deadline, o.result.error);
      assert sent + Later(o, 1).attempts == sent + 1 + o.attempts;
      assert Later(Later(w, o.attempts), 1) == Later(w, o.attempts + 1);
    }
  }

  /** The first success ends the walk: hosts after it are never contacted. */
  lemma {:induction false} WalkShortCircuit(net: Network, h1: seq<string>, h2: seq<string>, call: ApiCall,
                         sent: nat, now: nat, deadline: nat, error: string)
    requires Walk(net, h1, call, sent, now, deadline, error).result.Success?
    ensures Walk(net, h1 + h2, call, sent, now, deadline, error) == Walk(net, h1, call, sent, now, deadline, error)
  {
    WalkAppend(net, h1, h2, call, sent, now, deadline, error);
  }

  /** A successful walk of k attempts failed on its first k-1 hosts, and its
      outcome depends on nothing past the k-th. */
  lemma {:induction false} WalkWinnerIsFirstSuccess(net: Network, hosts: seq<string>, call: ApiCall,
                                                    sent: nat, now: nat, deadline: nat, error: string)
    requires Walk(net, hosts, call, sent, now, deadline, error).result.Success?
    ensures var k := Walk(net, hosts, call, sent, now, deadline, error).attempts;
            Walk(net, hosts[..k], call, sent, now, deadline, error) == Walk(net, hosts, call, sent, now, deadline, error)
    ensures var k := Walk(net, hosts, call, sent, now, deadline, error).attempts;
            Walk(net, hosts[..k - 1], call, sent, now, deadline, error).result.Failure?
  {
    var whole := Walk(net, hosts, call, sent, now, deadline, error);
    var k := whole.attempts;
    WalkPrefix(net, hosts, k, call, sent, now, deadline, error);
    var head := Walk(net, hosts[..k], call, sent, now, deadline, error);
    assert head == whole;
    var prefix := hosts[..k];
    assert |prefix| == k && prefix[..k - 1] == hosts[..k - 1];
    if Walk(net, hosts[..k - 1], call, sent, now, deadline, error).result.Success? {
      // a success within k-1 hosts fires at most k-1 requests
      WalkPrefixSuccess(net, prefix, k - 1, call, sent, now, deadline, error);
    }
  }

  /** A walk that succeeds on its first `j` hosts is that shorter walk. */
  lemma {:induction false} WalkPrefixSuccess(net: Network, hosts: seq<string>, j: nat, call: ApiCall,
                          sent: nat, now: nat, deadline: nat, error: string)
    requires j <= |hosts|
    requires Walk(net, hosts[..j], call, sent, now, deadline, error).result.Success?
    ensures Walk(net, hosts, call, sent, now, deadline, error) == Walk(net, hosts[..j], call, sent, now, deadline, error)
    ensures Walk(net, hosts, call, sent, now, deadline, error).attempts <= j
  {
    WalkPrefix(net, hosts, j, call, sent, now, deadline, error);
  }

  /** A walk that fails on its first `k` hosts goes on from there; one that
      succeeds within them ends there. */
  lemma {:induction false} WalkPrefix(net: Network, hosts: seq<string>, k: nat, call: ApiCall,
                   sent: nat, now: nat, deadline: nat, error: string)
    requires k <= |hosts|
    ensures var o := Walk(net, hosts[..k], call, sent, now, deadline, error);
            Walk(net, hosts, call, sent, now, deadline, error) ==
              if o.result.Success? then o
              else Later(Walk(net, hosts[k..], call, sent + o.attempts, o.now, deadline, o.result.error), o.attempts)
  {
    assert hosts == hosts[..k] + hosts[k..];
    WalkAppend(net, hosts[..k], hosts[k..], call, sent, now, deadline, error);
  }

  /** When every host fails, the error thrown is the last attempt's error;
      the fallback error survives only when no host was tried at all. */
  lemma {:induction false} WalkReportsLastError(net: Network, hosts: seq<string>, call: ApiCall,
                                                sent: nat, now: nat, deadline: nat, error: string)
    requires Walk(net, hosts, call, sent, now, deadline, error).result.Failure?
    ensures hosts == [] ==> Walk(net, hosts, call, sent, now, deadline, error).result == Failure(error)
    ensures hosts != [] ==>
              var before := Walk(net, hosts[..|hosts| - 1], call, sent, now, deadline, error);
              && before.result.Failure?
              && Walk(net, hosts, call, sent, now, deadline, error).result ==
                 TryFetch(net, sent + |hosts| - 1, At(hosts[|hosts| - 1], call), before.now, deadline).result
  {
    if hosts != [] {
      var n := |hosts|;
      var init := hosts[..n - 1];
      var last := hosts[n - 1];
      assert hosts == init + [last];
      WalkAppend(net, init, [last], call, sent, now, deadline, error);
      var before := Walk(net, init, call, sent, now, deadline, error);
      if before.result.Failure? {
        assert before.attempts == n - 1;
        WalkSingle(net, last, call, sent + n - 1, before.now, deadline, before.result.error);
      }
    }
  }

  /** A walk over one host is that host's attempt. */
  lemma WalkSingle(net: Network, host: string, call: ApiCall, sent: nat, now: nat, deadline: nat, error: string)
    ensures Walk(net, [host], call, sent, now, deadline, error).result == TryFetch(net, sent, At(host, call), now, deadline).result
  {
    assert [host][1..] == [];
  }

  /** Once the deadline has fired, every remaining attempt fails at once with
      the timeout error. */
  lemma {:induction false} WalkAfterDeadline(net: Network, hosts: seq<string>, call: ApiCall,
                                             sent: nat, now: nat, deadline: nat, error: string)
    requires now >= deadline && hosts != []
    ensures Walk(net, hosts, call, sent, now, deadline, error) ==
            Outcome(Failure(TimeoutMessage), None, |hosts|, now)
    decreases |hosts|
  {
    if |hosts| > 1 {
      WalkAfterDeadline(net, hosts[1..], call, sent + 1, now, deadline, TimeoutMessage);
    }
  }

  /** A host listed twice is fetched twice: when the first fetch is refused
      the second copy is a fresh fetch, and the walk may succeed on it. */
  lemma WalkRetriesDuplicate(net: Network, host: string, call: ApiCall, v: Value)
    requires net(0, At(host, call)) == Rejected(10, "Network request failed")
    requires net(1, At(host, call)) == Answered(10, 200, "OK", Some(v))
    ensures Walk(net, [host, host], call, 0, 0, FetchTimeoutMs, NoServerMessage) ==
            Outcome(Success(v), Some(host), 2, 20)
  {
    assert [host, host][1..] == [host];
  }

  /** The deadline is shared by all attempts of a call, not granted per
      attempt: a first host failing after 8 s leaves the second only 7 s,
      so an answer taking another 8 s loses to the timeout. */
  lemma SharedDeadline(net: Network, first: string, second: string, call: ApiCall)
    requires net(0, At(first, call)) == Rejected(8000, "Network request failed")
    requires net(1, At(second, call)).afterMs == 8000
    ensures Walk(net, [first, second], call, 0, 0, FetchTimeoutMs, NoServerMessage) ==
            Outcome(Failure(TimeoutMessage), None, 2, FetchTimeoutMs)
  {
    assert [first, second][1..] == [second];
    var s1 := TryFetch(net, 0, At(first, call), 0, FetchTimeoutMs);
    assert s1 == Step(Failure("Network request failed"), 8000);
    var s2 := TryFetch(net, 1, At(second, call), 8000, FetchTimeoutMs);
    assert s2 == Step(Failure(TimeoutMessage), FetchTimeoutMs);
    assert Walk(net, [second], call, 1, 8000, FetchTimeoutMs, s1.result.error) ==
           Outcome(Failure(TimeoutMessage), None, 1, FetchTimeoutMs);
  }

  // ---------------------------------------------------------------------
  // The reachability probe

  /** Any answer below 500 -- 4xx included -- received in time. */
  predicate Reachable(reply: Reply, now: nat, deadline: nat)
  {
    InTime(reply, now, deadline) && reply.Answered? && reply.status < 500
  }

  /** What the probe found, how many pings it fired, and the clock. */
  datatype Probed = Probed(found: Option<string>, fired: nat, now: nat)

  function PingedAfter(p: Probed, k: nat): Probed
  {
    p.(fired := p.fired + k)
  }

  /** `checkServerAvailability`'s loop: ping each host in order, a fresh
      fetch per entry starting with fetch number `sent`; hosts that throw,
      time out or answer 5xx are passed over. */
  function Probe(net: Network, hosts: seq<string>, sent: nat, now: nat, deadline: nat): (p: Probed)
    ensures p.now >= now
    ensures p.found.Some? ==> 1 <= p.fired <= |hosts| && p.found == Some(hosts[p.fired - 1])
    ensures p.found.None? ==> p.fired == |hosts|
    decreases |hosts|
  {
    if hosts == [] then Probed(None, 0, now)
    else
      var reply := net(sent, PingAt(hosts[0]));
      if Reachable(reply, now, deadline) then Probed(Some(hosts[0]), 1, now + reply.afterMs)
      else
        PingedAfter(Probe(net, hosts[1..], sent + 1, Settle(reply, now, deadline), deadline), 1)
  }

  /** What follows a probe of a first list of hosts: its result if it
      found one, otherwise the probe of `rest` from where it stopped. */
  function ProbeOn(net: Network, p: Probed, rest: seq<string>, sent: nat, deadline: nat): Probed
  {
    if p.found.Some? then p else PingedAfter(Probe(net, rest, sent + p.fired, p.now, deadline), p.fired)
  }

  /** Probing `h1 + h2` is probing `h1` and, only if nothing was found,
      probing `h2` from where it stopped. */
  lemma {:induction false} ProbeAppend(net: Network, h1: seq<string>, h2: seq<string>, sent: nat, now: nat,
                                       deadline: nat)
    ensures Probe(net, h1 + h2, sent, now, deadline) == ProbeOn(net, Probe(net, h1, sent, now, deadline), h2, sent, deadline)
    decreases |h1|
  {
    if h1 == [] {
      assert h1 + h2 == h2;
      var q := Probe(net, h2, sent, now, deadline);
      assert PingedAfter(q, 0) == q;
    } else {
      assert (h1 + h2)[0] == h1[0];
      assert (h1 + h2)[1..] == h1[1..] + h2;
      var reply := net(sent, PingAt(h1[0]));
      if !Reachable(reply, now, deadline) {
        ProbeAppend(net, h1[1..], h2, sent + 1, Settle(reply, now, deadline), deadline);
        ProbeOnLater(net, Probe(net, h1[1..], sent + 1, Settle(reply, now, deadline), deadline), h2, sent, deadline);
      }
    }
  }

  /** A probe one ping longer goes on one fetch number later. */
  lemma ProbeOnLater(net: Network, p: Probed, rest: seq<string>, sent: nat, deadline: nat)
    ensures ProbeOn(net, PingedAfter(p, 1), rest, sent, deadline) ==
            PingedAfter(ProbeOn(net, p, rest, sent + 1, deadline), 1)
  {
    if p.found.None? {
      var q := Probe(net, rest, sent + 1 + p.fired, p.now, deadline);
      assert sent + PingedAfter(p, 1).fired == sent + 1 + p.fired;
      assert PingedAfter(PingedAfter(q, p.fired), 1) == PingedAfter(q, p.fired + 1);
    }
  }

  /** The probe stops at the first host reachable at its own turn: once
      `hosts[..k]` were all passed over, the probe ends with the (k+1)-th
      ping, returning `hosts[k]`, exactly when that ping -- fetch number
      `sent + k` -- reaches it in time. */
  lemma {:induction false} ProbeFindsFirstReachable(net: Network, hosts: seq<string>, sent: nat, now: nat, deadline: nat, k: nat)
    requires k < |hosts|
    ensures var before := Probe(net, hosts[..k], sent, now, deadline);
            var p := Probe(net, hosts, sent, now, deadline);
            before.found.None? ==>
              (p.fired == k + 1 && p.found == Some(hosts[k]) <==>
               Reachable(net(sent + k, PingAt(hosts[k])), before.now, deadline))
  {
    var before := Probe(net, hosts[..k], sent, now, deadline);
    if before.found.None? {
      var rest := hosts[k..];
      assert hosts == hosts[..k] + rest;
      ProbeAppend(net, hosts[..k], rest, sent, now, deadline);
      ReachableAfter(net, hosts, sent, deadline, k, before, Probe(net, hosts, sent, now, deadline));
    }
  }

  /** Once `k` pings passed over the first hosts, the whole probe is the
      probe of the rest, `k` pings later, and its first ping decides. */
  lemma ReachableAfter(net: Network, hosts: seq<string>, sent: nat, deadline: nat, k: nat, before: Probed, p: Probed)
    requires k < |hosts| && before.found.None? && before.fired == k
    requires p == ProbeOn(net, before, hosts[k..], sent, deadline)
    ensures p.fired == k + 1 && p.found == Some(hosts[k]) <==>
            Reachable(net(sent + k, PingAt(hosts[k])), before.now, deadline)
  {
    var rest := hosts[k..];
    assert rest[0] == hosts[k];
    ProbeFirst(net, rest, sent + k, before.now, deadline);
  }

  /** The first ping decides whether the probe ends at once: it ends with
      one ping, on the first host, exactly when that host is reachable. */
  lemma {:induction false} ProbeFirst(net: Network, hosts: seq<string>, sent: nat, now: nat, deadline: nat)
    requires hosts != []
    ensures var p := Probe(net, hosts, sent, now, deadline);
            p.fired == 1 && p.found == Some(hosts[0]) <==> Reachable(net(sent, PingAt(hosts[0])), now, deadline)
  {
    var reply := net(sent, PingAt(hosts[0]));
    if !Reachable(reply, now, deadline) {
      // a failed first ping is followed by the probe of the rest: it finds
      // nothing or fires at least one more ping
      var later := Probe(net, hosts[1..], sent + 1, Settle(reply, now, deadline), deadline);
      assert Probe(net, hosts, sent, now, deadline) == PingedAfter(later, 1);
    }
  }

  /** A probe that finds nothing passed over every host at its turn. */
  lemma {:induction false} ProbeNothingReachable(net: Network, hosts: seq<string>, sent: nat, now: nat, deadline: nat)
    ensures Probe(net, hosts, sent, now, deadline).found.None? ==>
              forall k :: 0 <= k < |hosts| ==>
                !Reachable(net(sent + k, PingAt(hosts[k])), Probe(net, hosts[..k], sent, now, deadline).now, deadline)
  {
    if Probe(net, hosts, sent, now, deadline).found.None? {
      forall k | 0 <= k < |hosts|
        ensures !Reachable(net(sent + k, PingAt(hosts[k])), Probe(net, hosts[..k], sent, now, deadline).now, deadline)
      {
        assert hosts == hosts[..k] + hosts[k..];
        ProbeAppend(net, hosts[..k], hosts[k..], sent, now, deadline);
        ProbeFindsFirstReachable(net, hosts, sent, now, deadline, k);
      }
    }
  }

  /** A host listed twice is pinged twice: when its first ping fails, the
      second copy is a fresh fetch that may find it. */
  lemma ProbeRetriesDuplicate(net: Network, host: string)
    requires net(0, PingAt(host)) == Rejected(100, "Network request failed")
    requires net(1, PingAt(host)) == Answered(100, 200, "pong", None)
    ensures Probe(net, [host, host], 0, 0, ProbeTimeoutMs) == Probed(Some(host), 2, 200)
  {
    assert [host, host][1..] == [host];
  }

  /** Once the probe's deadline has fired no host can be found. */
  lemma {:induction false} ProbeAfterDeadline(net: Network, hosts: seq<string>, sent: nat, now: nat, deadline: nat)
    requires now >= deadline
    ensures Probe(net, hosts, sent, now, deadline).found.None?
    decreases |hosts|
  {
    if hosts != [] {
      ProbeAfterDeadline(net, hosts[1..], sent + 1, now, deadline);
    }
  }

  // ---------------------------------------------------------------------
  // Attempt order and the request as a whole

  /** The cell counts as remembered when it holds a truthy (non-empty) URL. */
  predicate IsSet(memory: Option<string>)
  {
    memory.Some? && memory.value != ""
  }

  /** The loop's hosts: `BASE_URLS` minus every entry `===` the cell. */
  function Skipping(bases: seq<string>, memory: Option<string>): seq<string>
  {
    if memory.Some? then Without(bases, memory.value) else bases
  }

  /** Every host one call tries, in the order it tries them: the remembered
      URL first, then the base list with the remembered URL skipped. */
  function Order(memory: Option<string>, bases: seq<string>): (o: seq<string>)
    ensures IsSet(memory) ==> |o| >= 1 && o[0] == memory.value
    ensures forall i :: 0 <= i < |o| ==> o[i] in bases || (IsSet(memory) && o[i] == memory.value)
    ensures memory.Some? ==> forall i :: 1 <= i < |o| ==> o[i] != memory.value
    ensures |o| <= 1 + |bases|
  {
    (if IsSet(memory) then [memory.value] else []) + Skipping(bases, memory)
  }

  /** The order starts with the remembered URL and holds it exactly once;
      every other base URL keeps its multiplicity (a duplicated entry is
      tried twice); the count of attempts follows. */
  lemma {:induction false} OrderShape(memory: Option<string>, bases: seq<string>)
    ensures IsSet(memory) ==> Count(Order(memory, bases), memory.value) == 1
    ensures memory.None? ==> Order(memory, bases) == bases
    ensures memory.Some? ==>
              forall x :: x != memory.value ==> Count(Order(memory, bases), x) == Count(bases, x)
    ensures memory.Some? ==>
              |Order(memory, bases)| == (if IsSet(memory) then 1 else 0) + |bases| - Count(bases, memory.value)
  {
    if memory.Some? {
      var m := memory.value;
      var head := if IsSet(memory) then [m] else [];
      forall x | x != m
        ensures Count(Order(memory, bases), x) == Count(bases, x)
      {
        CountAppend(head, Without(bases, m), x);
        CountWithout(bases, m, x);
      }
      CountAppend(head, Without(bases, m), m);
      CountWithout(bases, m, m);
      WithoutLength(bases, m);
    }
  }

  /** The cell once the probe step has run, the pings it fired, the clock. */
  datatype Resolved = Resolved(memory: Option<string>, fired: nat, now: nat)

  /** The probe step of `apiRequest`: with nothing remembered, probe and
      remember what it finds. */
  function Resolve(net: Network, bases: seq<string>, memory: Option<string>): (r: Resolved)
    ensures IsSet(memory) ==> r == Resolved(memory, 0, 0)
    ensures !IsSet(memory) ==>
              var p := Probe(net, bases, 0, 0, ProbeTimeoutMs);
              && r.fired == p.fired && r.now == p.now
              && (p.found.Some? ==> r.memory == p.found)
              && (p.found.None? ==> r.memory == memory)
    ensures r.memory != memory ==> r.memory.Some? && r.memory.value in bases
  {
    if IsSet(memory) then Resolved(memory, 0, 0)
    else
      var p := Probe(net, bases, 0, 0, ProbeTimeoutMs);
      Resolved(if p.found.Some? then p.found else memory, p.fired, p.now)
  }

  /** The result of a call, the cell afterwards, and the requests fired by
      the loop (pings not included). */
  datatype Dispatched = Dispatched(result: Result<Value>, memory: Option<string>, attempts: nat)

  /** Reference definition of `apiRequest`: the loop's first fetch follows
      the probe's pings. */
  function Request(net: Network, bases: seq<string>, memory: Option<string>, call: ApiCall): (d: Dispatched)
    ensures d.memory == memory || (d.memory.Some? && d.memory.value in bases)
    ensures d.attempts <= 1 + |bases|
  {
    var r := Resolve(net, bases, memory);
    var o := Walk(net, Order(r.memory, bases), call, r.fired, r.now, FetchTimeoutMs, NoServerMessage);
    Dispatched(o.result, if o.result.Success? then o.host else r.memory, o.attempts)
  }

  /** A success leaves the winning host remembered (a success of the already
      remembered URL leaves the cell as it was); a failure leaves the cell as
      the probe step set it, after trying every host in the order. */
  lemma {:induction false} RequestMemory(net: Network, bases: seq<string>, memory: Option<string>, call: ApiCall)
    ensures var r := Resolve(net, bases, memory);
            var order := Order(r.memory, bases);
            var d := Request(net, bases, memory, call);
            && (d.result.Success? ==> 1 <= d.attempts <= |order| && d.memory == Some(order[d.attempts - 1]))
            && (d.result.Success? && IsSet(r.memory) && d.attempts == 1 ==> d.memory == r.memory)
            && (d.result.Failure? ==> d.memory == r.memory && d.attempts == |order|)
  {
    var r := Resolve(net, bases, memory);
    RequestUnfold(net, bases, memory, call);
    DispatchedFromWalk(net, bases, call, r, Request(net, bases, memory, call));
  }

  /** The loop's outcome, read off a walk of the order from any probe step. */
  lemma DispatchedFromWalk(net: Network, bases: seq<string>, call: ApiCall, r: Resolved, d: Dispatched)
    requires var o := Walk(net, Order(r.memory, bases), call, r.fired, r.now, FetchTimeoutMs, NoServerMessage);
             d == Dispatched(o.result, if o.result.Success? then o.host else r.memory, o.attempts)
    ensures var order := Order(r.memory, bases);
            && (d.result.Success? ==> 1 <= d.attempts <= |order| && d.memory == Some(order[d.attempts - 1]))
            && (d.result.Success? && IsSet(r.memory) && d.attempts == 1 ==> d.memory == r.memory)
            && (d.result.Failure? ==> d.memory == r.memory && d.attempts == |order|)
  {
    var order := Order(r.memory, bases);
    if d.result.Success? && IsSet(r.memory) {
      assert order[0] == r.memory.value;
    }
  }

  lemma RequestUnfold(net: Network, bases: seq<string>, memory: Option<string>, call: ApiCall)
    ensures var r := Resolve(net, bases, memory);
            var o := Walk(net, Order(r.memory, bases), call, r.fired, r.now, FetchTimeoutMs, NoServerMessage);
            Request(net, bases, memory, call) ==
              Dispatched(o.result, if o.result.Success? then o.host else r.memory, o.attempts)
  {
  }

  /** With a remembered URL no probe runs and the remembered URL is tried
      first, as the call's first fetch; if it answers, nothing else is
      contacted. */
  lemma {:induction false} RememberedTriedFirst(net: Network, bases: seq<string>, memory: Option<string>, call: ApiCall)
    requires IsSet(memory)
    requires TryFetch(net, 0, At(memory.value, call), 0, FetchTimeoutMs).result.Success?
    ensures Request(net, bases, memory, call) ==
            Dispatched(TryFetch(net, 0, At(memory.value, call), 0, FetchTimeoutMs).result, memory, 1)
  {
    WalkShortCircuit(net, [memory.value], Skipping(bases, memory), call, 0, 0, FetchTimeoutMs, NoServerMessage);
  }

  /** "Reintentar Conexión": the cell is cleared and the probe runs again;
      the cell ends holding what the probe found, which is a base URL. */
  function Reconnect(net: Network, bases: seq<string>): (memory: Option<string>)
    ensures memory.Some? ==> memory.value in bases
    ensures memory.None? ==>
              forall k :: 0 <= k < |bases| ==>
                !Reachable(net(k, PingAt(bases[k])), Probe(net, bases[..k], 0, 0, ProbeTimeoutMs).now, ProbeTimeoutMs)
  {
    ProbeNothingReachable(net, bases, 0, 0, ProbeTimeoutMs);

    Resolve(net, bases, None).memory
  }

  // ---------------------------------------------------------------------
  // The imperative dispatcher

  /** `apiRequest` as the source writes it: probe if nothing is remembered,
      try the remembered URL, then loop over the base list skipping it. */
  method ApiRequest(net: Network, bases: seq<string>, memory: Option<string>, call: ApiCall)
    returns (result: Result<Value>, remembered: Option<string>, attempts: nat)
    ensures Request(net, bases, memory, call) == Dispatched(result, remembered, attempts)
  {
    var resolved := Resolve(net, bases, memory);
    var known := resolved.memory;
    var sent := resolved.fired;
    ghost var spec := Walk(net, Order(known, bases), call, sent, resolved.now, FetchTimeoutMs, NoServerMessage);
    assert Request(net, bases, memory, call) ==
           Dispatched(spec.result, if spec.result.Success? then spec.host else known, spec.attempts);
    var host: Option<string>;
    if IsSet(known) {
      var s := TryFetch(net, sent, At(known.value, call), resolved.now, FetchTimeoutMs);
      assert Order(known, bases) == [known.value] + Skipping(bases, known);
      WalkCons(net, known.value, Skipping(bases, known), call, sent, resolved.now, FetchTimeoutMs, NoServerMessage);
      if s.result.Success? {
        return s.result, known, 1;
      }
      result, host, attempts := TryBases(net, bases, known, call, sent + 1, s.now, s.result.error);
      attempts := attempts + 1;
    } else {
      assert Order(known, bases) == Skipping(bases, known);
      result, host, attempts := TryBases(net, bases, known, call, sent, resolved.now, NoServerMessage);
    }
    assert bases[0..] == bases;
    remembered := if result.Success? then host else known;
  }

  /** The loop over the base list: every entry `===` the remembered URL is
      passed over, the others are tried in order until one succeeds. */
  method TryBases(net: Network, bases: seq<string>, known: Option<string>, call: ApiCall,
                  sent: nat, start: nat, firstError: string)
    returns (result: Result<Value>, host: Option<string>, attempts: nat)
    ensures var o := Walk(net, Skipping(bases, known), call, sent, start, FetchTimeoutMs, firstError);
            result == o.result && host == o.host && attempts == o.attempts
  {
    ghost var spec := BasesFrom(net, bases, 0, known, call, sent, start, firstError);
    var now := start;
    var error := firstError;
    attempts := 0;
    var i := 0;
    while i < |bases|
      invariant 0 <= i <= |bases|
      invariant spec == Later(BasesFrom(net, bases, i, known, call, sent + attempts, now, error), attempts)
    {
      if known != Some(bases[i]) {
        var s := TryFetch(net, sent + attempts, At(bases[i], call), now, FetchTimeoutMs);
        attempts := attempts + 1;
        now := s.now;
        if s.result.Success? {
          result, host := s.result, Some(bases[i]);
          BasesFromIsWalk(net, bases, 0, known, call, sent, start, firstError);
          return;
        }
        error := s.result.error;
      }
      i := i + 1;
    }
    BasesFromIsWalk(net, bases, 0, known, call, sent, start, firstError);
    return Failure(error), None, attempts;
  }

  /** The loop from base entry `i` on, stated as a function that follows it
      turn by turn. */
  function BasesFrom(net: Network, bases: seq<string>, i: nat, known: Option<string>, call: ApiCall,
                     sent: nat, now: nat, error: string): Outcome
    requires i <= |bases|
    decreases |bases| - i
  {
    if i == |bases| then Outcome(Failure(error), None, 0, now)
    else if known == Some(bases[i]) then BasesFrom(net, bases, i + 1, known, call, sent, now, error)
    else
      var s := TryFetch(net, sent, At(bases[i], call), now, FetchTimeoutMs);
      if s.result.Success? then Outcome(s.result, Some(bases[i]), 1, s.now)
      else Later(BasesFrom(net, bases, i + 1, known, call, sent + 1, s.now, s.result.error), 1)
  }

  /** The loop walks exactly the base list with the remembered URL skipped. */
  lemma {:induction false} BasesFromIsWalk(net: Network, bases: seq<string>, i: nat, known: Option<string>,
                                           call: ApiCall, sent: nat, now: nat, error: string)
    requires i <= |bases|
    ensures BasesFrom(net, bases, i, known, call, sent, now, error) ==
            Walk(net, Skipping(bases[i..], known), call, sent, now, FetchTimeoutMs, error)
    decreases |bases| - i
  {
    if i == |bases| {
      assert bases[i..] == [];
      assert Skipping(bases[i..], known) == [];
    } else {
      LoopStep(net, bases, i, known, call, sent, now, error);
      if known == Some(bases[i]) {
        BasesFromIsWalk(net, bases, i + 1, known, call, sent, now, error);
      } else {
        var s := TryFetch(net, sent, At(bases[i], call), now, FetchTimeoutMs);
        if s.result.Failure? {
          BasesFromIsWalk(net, bases, i + 1, known, call, sent + 1, s.now, s.result.error);
        }
      }
    }
  }

  /** One step of a walk: the first host is tried, and the rest walked only
      if it failed. */
  lemma {:induction false} WalkCons(net: Network, host: string, rest: seq<string>, call: ApiCall,
                 sent: nat, now: nat, deadline: nat, error: string)
    ensures var s := TryFetch(net, sent, At(host, call), now, deadline);
            Walk(net, [host] + rest, call, sent, now, deadline, error) ==
              if s.result.Success? then Outcome(s.result, Some(host), 1, s.now)
              else Later(Walk(net, rest, call, sent + 1, s.now, deadline, s.result.error), 1)
  {
    assert ([host] + rest)[0] == host && ([host] + rest)[1..] == rest;
  }

  /** One turn of the loop over the base list: an entry equal to the
      remembered URL is passed over, any other is tried. */
  lemma {:induction false} LoopStep(net: Network, bases: seq<string>, i: nat, known: Option<string>, call: ApiCall,
                 sent: nat, now: nat, error: string)
    requires i < |bases|
    ensures known == Some(bases[i]) ==>
              Walk(net, Skipping(bases[i..], known), call, sent, now, FetchTimeoutMs, error) ==
              Walk(net, Skipping(bases[i + 1..], known), call, sent, now, FetchTimeoutMs, error)
    ensures known != Some(bases[i]) ==>
              var s := TryFetch(net, sent, At(bases[i], call), now, FetchTimeoutMs);
              Walk(net, Skipping(bases[i..], known), call, sent, now, FetchTimeoutMs, error) ==
                if s.result.Success? then Outcome(s.result, Some(bases[i]), 1, s.now)
                else Later(Walk(net, Skipping(bases[i + 1..], known), call, sent + 1, s.now, FetchTimeoutMs,
                                s.result.error), 1)
  {
    SkippingStep(bases, i, known);
    var rest := Skipping(bases[i + 1..], known);
    if known == Some(bases[i]) {
      assert Skipping(bases[i..], known) == rest;
    } else {
      WalkCons(net, bases[i], rest, call, sent, now, FetchTimeoutMs, error);
    }
  }

  /** The skipping filter, one base entry at a time. */
  lemma {:induction false} SkippingStep(bases: seq<string>, i: nat, memory: Option<string>)
    requires i < |bases|
    ensures Skipping(bases[i..], memory) ==
            (if memory == Some(bases[i]) then [] else [bases[i]]) + Skipping(bases[i + 1..], memory)
  {
    assert bases[i..][0] == bases[i] && bases[i..][1..] == bases[i + 1..];
  }
}
