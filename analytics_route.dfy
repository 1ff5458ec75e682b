/** The analytics endpoint: `POST` derives the client ip and user agent
    from the request headers, answers a bot without touching the ledger and
    otherwise records the visit; `GET` returns the statistics. The clock is
    a parameter (`now`, `today`); a thrown error is an input. */
module AnalyticsApi {
  import opened Common
  import opened AnalyticsStorage

  /** The request headers the handler reads; `None` is a missing header. */
  datatype RequestHeaders = RequestHeaders(forwardedFor: Option<string>, realIp: Option<string>, userAgent: Option<string>)

  /** A header value is used only when present and non-empty (JavaScript
      truthiness of a string). */
  predicate Truthy(h: Option<string>)
  {
    h.Some? && h.value != ""
  }

  /** The characters `String.prototype.trim` removes: white space and line
      terminators. */
  predicate IsTrimmed(c: char)
  {
    c == '\t' || c == '\n' || c == '\U{000B}' || c == '\U{000C}' || c == '\r' || c == ' '
    || c == '\U{00A0}' || c == '\U{1680}' || ('\U{2000}' <= c <= '\U{200A}')
    || c == '\U{2028}' || c == '\U{2029}' || c == '\U{202F}' || c == '\U{205F}'
    || c == '\U{3000}' || c == '\U{FEFF}'
  }

  /** `s.split(',')[0]`: everything before the first comma. */
  function FirstSegment(s: string): (r: string)
    ensures |r| <= |s| && r == s[..|r|]
    ensures ',' !in r
    ensures |r| < |s| ==> s[|r|] == ','
  {
    if s == [] || s[0] == ',' then [] else [s[0]] + FirstSegment(s[1..])
  }

  function TrimStart(s: string): (r: string)
    ensures |r| <= |s| && r == s[|s| - |r|..]
    ensures forall i :: 0 <= i < |s| - |r| ==> IsTrimmed(s[i])
    ensures r == [] || !IsTrimmed(r[0])
  {
    if s != [] && IsTrimmed(s[0]) then TrimStart(s[1..]) else s
  }

  function TrimEnd(s: string): (r: string)
    ensures |r| <= |s| && r == s[..|r|]
    ensures forall i :: |r| <= i < |s| ==> IsTrimmed(s[i])
    ensures r == [] || !IsTrimmed(r[|r| - 1])
  {
    if s != [] && IsTrimmed(s[|s| - 1]) then TrimEnd(s[..|s| - 1]) else s
  }

  /** `s.trim()`: the longest infix that neither starts nor ends with a
      trimmed character; only trimmed characters are dropped around it. */
  function Trim(s: string): (r: string)
    ensures exists a ::
              OccursAt(s, r, a)
              && (forall i :: 0 <= i < a ==> IsTrimmed(s[i]))
              && (forall i :: a + |r| <= i < |s| ==> IsTrimmed(s[i]))
    ensures r == [] || (!IsTrimmed(r[0]) && !IsTrimmed(r[|r| - 1]))
  {
    var t := TrimStart(s);
    var r := TrimEnd(t);
    var a := |s| - |t|;
    assert OccursAt(s, r, a);
    r
  }

  /** The client ip: the first comma-separated entry of a non-empty
      `x-forwarded-for`, trimmed; otherwise a non-empty `x-real-ip` as it
      is; otherwise `unknown`. */
  function ClientIp(h: RequestHeaders): (ip: string)
    ensures Truthy(h.forwardedFor) ==> ip == Trim(FirstSegment(h.forwardedFor.value))
    ensures !Truthy(h.forwardedFor) && Truthy(h.realIp) ==> ip == h.realIp.value
    ensures !Truthy(h.forwardedFor) && !Truthy(h.realIp) ==> ip == "unknown"
  {
    var ip := "unknown";
    if Truthy(h.forwardedFor) then Trim(FirstSegment(h.forwardedFor.value))
    else if Truthy(h.realIp) then h.realIp.value
    else ip
  }

  /** An ip taken from `x-forwarded-for` never holds a comma and never
      starts or ends with white space. */
  lemma {:induction false} ForwardedIpIsClean(h: RequestHeaders)
    requires Truthy(h.forwardedFor)
    ensures ',' !in ClientIp(h)
    ensures var ip := ClientIp(h); ip == [] || (!IsTrimmed(ip[0]) && !IsTrimmed(ip[|ip| - 1]))
  {
    var seg := FirstSegment(h.forwardedFor.value);
    var ip := Trim(seg);
    assert ClientIp(h) == ip;
    var a :| OccursAt(seg, ip, a);
    InfixLacks(seg, ip, a, ',');
  }

  /** A character missing from a text is missing from every infix of it. */
  lemma {:induction false} InfixLacks(s: string, p: string, a: int, c: char)
    requires OccursAt(s, p, a) && c !in s
    ensures c !in p
  {
    forall k | 0 <= k < |p| ensures p[k] != c {
      assert p[k] == s[a + k];
    }
  }

  /** A missing or empty user-agent header becomes `unknown`. */
  function UserAgent(h: RequestHeaders): (ua: string)
    ensures Truthy(h.userAgent) ==> ua == h.userAgent.value
    ensures !Truthy(h.userAgent) ==> ua == "unknown"
  {
    if Truthy(h.userAgent) then h.userAgent.value else "unknown"
  }

  /** `unknown` is shorter than 20 characters, so a request without a user
      agent is always classified as a bot. */
  lemma {:induction false} MissingUserAgentIsBot(h: RequestHeaders)
    requires !Truthy(h.userAgent)
    ensures IsBot(UserAgent(h))
  {
  }

  datatype PostResponse =
    | BotFiltered(message: string, kind: string)
    | Recorded(result: AddResult, timestamp: string)
    | ServerError(status: nat, error: string)

  const BotMessage := "Bot detected, not tracked"
  const InternalError := "Internal server error"

  /** What `POST` answers and what the table holds afterwards. `throws`
      stands for an exception raised before the ledger is changed. */
  datatype PostOutcome = PostOutcome(response: PostResponse, rows: seq<VisitorRow>)

  function PostStep(rows: seq<VisitorRow>, h: RequestHeaders, today: string, now: string,
                    faults: LedgerFaults, throws: bool): (o: PostOutcome)
    ensures IsBot(UserAgent(h)) ==> o == PostOutcome(BotFiltered(BotMessage, "bot_filtered"), rows)
    ensures !IsBot(UserAgent(h)) && throws ==> o == PostOutcome(ServerError(500, InternalError), rows)
    ensures !IsBot(UserAgent(h)) && !throws ==>
      var step := AddVisitorStep(rows, VisitorId(ClientIp(h), UserAgent(h)), today, faults);
      o == PostOutcome(Recorded(step.result, now), step.rows)
  {
    var ua := UserAgent(h);
    if IsBot(ua) then PostOutcome(BotFiltered(BotMessage, "bot_filtered"), rows)
    else if throws then PostOutcome(ServerError(500, InternalError), rows)
    else
      var step := AddVisitorStep(rows, VisitorId(ClientIp(h), ua), today, faults);
      PostOutcome(Recorded(step.result, now), step.rows)
  }

  /** Bot traffic never reaches the table. */
  lemma {:induction false} BotNeverRecorded(rows: seq<VisitorRow>, h: RequestHeaders, today: string, now: string,
                         faults: LedgerFaults, throws: bool)
    requires IsBot(UserAgent(h))
    ensures PostStep(rows, h, today, now, faults, throws).rows == rows
    ensures PostStep(rows, h, today, now, faults, throws).response.BotFiltered?
  {
  }

  /** The `POST` handler acting on the table. */
  method Post(table: VisitorsTable, h: RequestHeaders, today: string, now: string,
              faults: LedgerFaults, throws: bool) returns (response: PostResponse)
    modifies table
    ensures PostOutcome(response, table.rows) == PostStep(old(table.rows), h, today, now, faults, throws)
    ensures OnePerDay(old(table.rows)) && !faults.dailyLookupFails ==> OnePerDay(table.rows)
  {
    var ip := ClientIp(h);
    var userAgent := UserAgent(h);
    if IsBot(userAgent) {
      return BotFiltered(BotMessage, "bot_filtered");
    }
    if throws {
      return ServerError(500, InternalError);
    }
    var result := table.AddVisitor(ip, userAgent, today, faults);
    response := Recorded(result, now);
  }

  datatype GetResponse = Stats(stats: VisitorStats, timestamp: string) | GetFailed(status: nat, error: string)

  /** `GET`: the statistics with a timestamp, or 500 on a thrown error. */
  function Get(rows: seq<VisitorRow>, today: string, now: string, countFails: bool, listFails: bool, throws: bool): (r: GetResponse)
    ensures throws <==> r == GetFailed(500, InternalError)
    ensures !throws ==> r == Stats(GetVisitorStats(rows, today, countFails, listFails), now)
    ensures !throws ==> r.stats.dailyVisitors <= |rows| && r.stats.totalVisitors <= |rows|
  {
    if throws then GetFailed(500, InternalError)
    else Stats(GetVisitorStats(rows, today, countFails, listFails), now)
  }
}
