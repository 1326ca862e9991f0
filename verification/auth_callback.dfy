/** The authentication callback: exchanges the one-time `code` for a session and redirects to
    the password-reset page (recovery links), to the `next` path, or to the login page with an
    error. */
module AuthCallback {
  import opened Wrappers
  import Strings

  /** The parsed query string, in order; a name may occur several times. */
  type Query = seq<(string, string)>

  /** `searchParams.get(name)`: the first value given for `name`. */
  function Get(q: Query, name: string): (r: Option<string>)
    ensures r.None? <==> forall k :: 0 <= k < |q| ==> q[k].0 != name
    ensures r.Some? ==> exists k :: 0 <= k < |q| && q[k] == (name, r.value) && forall j :: 0 <= j < k ==> q[j].0 != name
    decreases |q|
  {
    if q == [] then None
    else if q[0].0 == name then Some(q[0].1)
    else
      var r := Get(q[1..], name);
      assert r.Some? ==> exists k :: 0 <= k < |q| && q[k] == (name, r.value) && forall j :: 0 <= j < k ==> q[j].0 != name by {
        if r.Some? {
          var k :| 0 <= k < |q[1..]| && q[1..][k] == (name, r.value) && forall j :: 0 <= j < k ==> q[1..][j].0 != name;
          assert q[k + 1] == (name, r.value);
          assert forall j :: 0 <= j < k + 1 ==> q[j].0 != name by {
            forall j | 0 <= j < k + 1 ensures q[j].0 != name {
              if j > 0 { assert q[j] == q[1..][j - 1]; }
            }
          }
        }
      }
      r
  }

  datatype Request = Request(url: string, origin: string, query: Query)

  /** What `exchangeCodeForSession` answered: whether it reported an error, and whether it
      returned a session. */
  datatype Exchange = Exchange(failed: bool, hasSession: bool)

  /** The redirect location, and whether the code was sent for exchange. */
  datatype Outcome = Outcome(location: string, exchanged: bool)

  const DefaultNext: string := "/planning"
  const ResetPath: string := "/login/reset-password"
  const FailurePath: string := "/login?error=auth_callback_failed"

  /** `if (code)`: present and not empty. Only the first `code` parameter is consulted. */
  predicate HasCode(q: Query)
    ensures HasCode(q) ==> exists k :: 0 <= k < |q| && q[k].0 == "code" && q[k].1 != ""
    ensures (forall k :: 0 <= k < |q| ==> q[k].0 != "code") ==> !HasCode(q)
    ensures |q| > 0 && q[0].0 == "code" ==> (HasCode(q) <==> q[0].1 != "")
  {
    Get(q, "code").Some? && Get(q, "code").value != ""
  }

  /** A recovery link: `type=recovery` as a parameter, or anywhere in the raw URL. */
  predicate IsRecovery(req: Request)
    ensures IsRecovery(req) <==> Get(req.query, "type") == Some("recovery")
                                 || exists i :: Strings.OccursAt(req.url, "type=recovery", i)
  {
    Get(req.query, "type") == Some("recovery") || Strings.Contains(req.url, "type=recovery")
  }

  /** `searchParams.get('next') ?? '/planning'`: only a missing parameter is replaced. */
  function Next(q: Query): (n: string)
    ensures Get(q, "next").None? ==> n == DefaultNext
    ensures Get(q, "next").Some? ==> n == Get(q, "next").value
  {
    Get(q, "next").GetOr(DefaultNext)
  }

  /** The route handler; `exchange` is the store's answer, consulted only when a code is sent. */
  function Callback(req: Request, exchange: Exchange): (o: Outcome)
    ensures o.exchanged <==> HasCode(req.query)
    ensures Strings.StartsWith(o.location, req.origin)
  {
    if HasCode(req.query) && !exchange.failed && exchange.hasSession then
      if IsRecovery(req) then Outcome(req.origin + ResetPath, true)
      else Outcome(req.origin + Next(req.query), true)
    else Outcome(req.origin + FailurePath, HasCode(req.query))
  }

  // ---------------------------------------------------------------- properties

  /** A missing or empty code fails without contacting the store, whatever else the URL says. */
  lemma NoCodeFails(req: Request, exchange: Exchange)
    requires !HasCode(req.query)
    ensures Callback(req, exchange) == Outcome(req.origin + FailurePath, false)
  {
  }

  /** A code the store rejects, or that yields no session, fails too. */
  lemma ExchangeFailureFails(req: Request, exchange: Exchange)
    requires HasCode(req.query) && (exchange.failed || !exchange.hasSession)
    ensures Callback(req, exchange) == Outcome(req.origin + FailurePath, true)
  {
  }

  /** A successful recovery link always lands on the reset page, ignoring `next`. */
  lemma RecoveryGoesToReset(req: Request, next: string)
    requires HasCode(req.query) && IsRecovery(req)
    ensures Callback(req, Exchange(false, true)).location == req.origin + ResetPath
    ensures Callback(req.(query := req.query + [("next", next)]), Exchange(false, true)).location == req.origin + ResetPath
  {
    GetAppendOther(req.query, ("next", next), "code");
    GetAppendOther(req.query, ("next", next), "type");
  }

  /** Appending a pair for another name leaves a parameter's value alone. */
  lemma {:induction false} GetAppendOther(q: Query, pair: (string, string), name: string)
    requires pair.0 != name
    ensures Get(q + [pair], name) == Get(q, name)
    decreases |q|
  {
    if q == [] {
      assert Get([pair][1..], name) == None;
    } else if q[0].0 != name {
      assert (q + [pair])[1..] == q[1..] + [pair];
      GetAppendOther(q[1..], pair, name);
    }
  }

  /** Any other success follows `next`, "/planning" when it is absent. */
  lemma SuccessFollowsNext(req: Request)
    requires HasCode(req.query) && !IsRecovery(req)
    ensures Get(req.query, "next").None? ==> Callback(req, Exchange(false, true)).location == req.origin + "/planning"
    ensures Get(req.query, "next").Some? ==> Callback(req, Exchange(false, true)).location == req.origin + Get(req.query, "next").value
  {
  }

  /** A "type=recovery" anywhere in the URL, even inside another parameter's value, counts as
      a recovery link. */
  lemma RecoveryBySubstring(req: Request)
    requires Get(req.query, "type").None?
    requires Strings.OccursAt(req.url, "type=recovery", 0)
    ensures IsRecovery(req)
  {
  }

  // ---------------------------------------------------------------- where the redirect leads

  /** A location built as `origin + rest` stays on `origin` when `rest` is empty or starts with
      one of the characters that end a URL's authority ('/', '?', '#'); any other character
      becomes part of the host, port or user information. */
  predicate StaysOnOrigin(origin: string, location: string) {
    && Strings.StartsWith(location, origin)
    && (|location| == |origin| || location[|origin|] in {'/', '?', '#'})
  }

  /** As written, `next` is appended to the origin unchecked: "@evil.example" turns
      "https://app.example" into "https://app.example@evil.example", whose host is
      evil.example. */
  lemma NextCanLeaveOrigin(origin: string, url: string)
    requires !Strings.Contains(url, "type=recovery")
    ensures var req := Request(url, origin, [("code", "c"), ("next", "@evil.example")]);
            !StaysOnOrigin(origin, Callback(req, Exchange(false, true)).location)
  {
    var req := Request(url, origin, [("code", "c"), ("next", "@evil.example")]);
    assert Get(req.query, "code") == Some("c");
    assert Get(req.query, "next") == Some("@evil.example");
    assert Get(req.query, "type") == None;
    assert (origin + "@evil.example")[|origin|] == '@';
  }

  /** `next` restricted to in-application paths: one that does not start with '/' is replaced
      by the default. */
  function SafeNext(q: Query): (n: string)
    ensures n == DefaultNext || n == Next(q)
    ensures |n| > 0 && n[0] == '/'
  {
    var n := Next(q);
    if |n| > 0 && n[0] == '/' then n else DefaultNext
  }

  /** The handler with `SafeNext` in place of `Next`. */
  function SafeCallback(req: Request, exchange: Exchange): (o: Outcome)
    ensures o.exchanged <==> HasCode(req.query)
    ensures StaysOnOrigin(req.origin, o.location)
    ensures Callback(req, exchange).location != o.location ==> o.location == req.origin + DefaultNext
  {
    var rest :=
      if HasCode(req.query) && !exchange.failed && exchange.hasSession then
        if IsRecovery(req) then ResetPath else SafeNext(req.query)
      else FailurePath;
    assert (req.origin + rest)[..|req.origin|] == req.origin;
    assert (req.origin + rest)[|req.origin|] == rest[0];
    Outcome(req.origin + rest, HasCode(req.query))
  }
}
