/** The visitor ledger: a deterministic visitor id, the user-agent bot
    classifier, and the rows of the `visitors` table (one row per visitor
    per day) with the two "is new" lookups, the conditional insert and the
    statistics query. The database is an abstract row sequence; a failed
    lookup, count or insert is an input. */
module AnalyticsStorage {
  import opened Common
  import Base64

  // ---------------------------------------------------------------------
  // Visitor id

  /** The bytes `Buffer.from` produces for a string, one byte per
      character; exact for ASCII text. */
  function Bytes(s: string): (b: seq<Base64.Byte>)
    ensures |b| == |s|
    ensures forall i :: 0 <= i < |s| && s[i] as int < 128 ==> b[i] == s[i] as int
  {
    seq(|s|, i requires 0 <= i < |s| => (s[i] as int) % 256)
  }

  /** The text the visitor id is derived from: the ip, a hyphen and at most
      the first 100 characters of the user agent. */
  function VisitorKey(ip: string, userAgent: string): (k: string)
    ensures |k| == |ip| + 1 + Min(|userAgent|, 100)
  {
    ip + "-" + userAgent[..Min(|userAgent|, 100)]
  }

  /** `generateVisitorId`: the Base64 of the key, cut to 16 characters.
      Sixteen Base64 characters carry exactly 12 bytes, so the id is the
      encoding of the first 12 bytes of the key and nothing after them. */
  function VisitorId(ip: string, userAgent: string): (id: string)
    ensures |id| <= 16
    ensures var b := Bytes(VisitorKey(ip, userAgent));
      if |b| >= 12 then |id| == 16 && id == Base64.Encode(b[..12])
      else id == Base64.Encode(b)
  {
    var b := Bytes(VisitorKey(ip, userAgent));
    var e := Base64.Encode(b);
    FirstSixteenChars(b);
    if |e| <= 16 then e else e[..16]
  }

  lemma {:induction false} FirstSixteenChars(b: seq<Base64.Byte>)
    ensures |b| >= 12 ==> |Base64.Encode(b)| >= 16 && Base64.Encode(b)[..16] == Base64.Encode(b[..12])
    ensures |b| < 12 ==> |Base64.Encode(b)| <= 16
    ensures |b| == 12 ==> |Base64.Encode(b)| == 16
  {
    if |b| >= 12 {
      Base64.EncodePrefix(b, 4);
      assert b[..12] == b ==> |b| == 12;
    } else {
      assert (|b| + 2) / 3 <= 4;
    }
  }

  /** Two requests get the same visitor id exactly when the first 12 bytes
      of their keys agree (for keys of at least 12 bytes). For an ip of 11
      or more characters the user agent therefore plays no part. */
  lemma {:induction false} SameVisitorIdIffSameKeyPrefix(ip1: string, ua1: string, ip2: string, ua2: string)
    requires |VisitorKey(ip1, ua1)| >= 12 && |VisitorKey(ip2, ua2)| >= 12
    ensures VisitorId(ip1, ua1) == VisitorId(ip2, ua2) <==>
      Bytes(VisitorKey(ip1, ua1))[..12] == Bytes(VisitorKey(ip2, ua2))[..12]
  {
    var b1, b2 := Bytes(VisitorKey(ip1, ua1)), Bytes(VisitorKey(ip2, ua2));
    if VisitorId(ip1, ua1) == VisitorId(ip2, ua2) {
      Base64.EncodeInjective(b1[..12], b2[..12]);
    }
  }

  /** Only the first 100 characters of the user agent reach the id. */
  lemma {:induction false} VisitorIdIgnoresUserAgentTail(ip: string, ua1: string, ua2: string)
    requires |ua1| >= 100 && |ua2| >= 100 && ua1[..100] == ua2[..100]
    ensures VisitorId(ip, ua1) == VisitorId(ip, ua2)
  {
  }

  // ---------------------------------------------------------------------
  // Bot classifier

  /** A pattern of the list: a case-insensitive literal, or the one
      alternation of two literals (`/java\/|java /i`). */
  datatype BotPattern = Literal(text: string) | Either(left: string, right: string)

  const BotPatterns: seq<BotPattern> := [
    Literal("bot"), Literal("crawl"), Literal("spider"), Literal("scrape"),
    Literal("facebook"), Literal("twitter"), Literal("linkedin"), Literal("whatsapp"),
    Literal("telegram"), Literal("slack"), Literal("googlebot"), Literal("bingbot"),
    Literal("yandex"), Literal("baidu"), Literal("duckduck"), Literal("headless"),
    Literal("phantom"), Literal("selenium"), Literal("curl"), Literal("wget"),
    Literal("python"), Either("java/", "java "), Literal("libwww")
  ]

  /** ASCII case folding, which is what the `i` flag does for these
      all-ASCII patterns. */
  function Lower(c: char): char
  {
    if 'A' <= c <= 'Z' then (c as int + 32) as char else c
  }

  function LowerString(s: string): (r: string)
    ensures |r| == |s| && forall i :: 0 <= i < |s| ==> r[i] == Lower(s[i])
  {
    seq(|s|, i requires 0 <= i < |s| => Lower(s[i]))
  }

  /** `p` matches case-insensitively at the start of `s`. */
  predicate StartsWithIgnoreCase(s: string, p: string)
    decreases |p|
  {
    p == [] || (|s| > 0 && Lower(s[0]) == Lower(p[0]) && StartsWithIgnoreCase(s[1..], p[1..]))
  }

  /** The regex search: try every start position from the left. */
  predicate ContainsIgnoreCase(s: string, p: string)
    decreases |s|
  {
    StartsWithIgnoreCase(s, p) || (|s| > 0 && ContainsIgnoreCase(s[1..], p))
  }

  lemma {:induction false} StartsWithIgnoreCaseSpec(s: string, p: string)
    ensures StartsWithIgnoreCase(s, p) <==> |p| <= |s| && LowerString(s[..|p|]) == LowerString(p)
    decreases |p|
  {
    if p != [] && |s| > 0 {
      StartsWithIgnoreCaseSpec(s[1..], p[1..]);
      if |p| <= |s| {
        var a, b := LowerString(s[..|p|]), LowerString(p);
        assert LowerString(s[1..][..|p| - 1]) == a[1..];
        assert LowerString(p[1..]) == b[1..];
        assert a == b <==> a[0] == b[0] && a[1..] == b[1..];
      }
    }
  }

  /** The left-to-right search finds exactly the occurrences of the
      lower-cased pattern in the lower-cased text. */
  lemma {:induction false} ContainsIgnoreCaseSpec(s: string, p: string)
    ensures ContainsIgnoreCase(s, p) <==> Contains(LowerString(s), LowerString(p))
    decreases |s|
  {
    var ls, lp := LowerString(s), LowerString(p);
    StartsAtZero(s, p);
    if |s| > 0 {
      ContainsIgnoreCaseSpec(s[1..], p);
      assert LowerString(s[1..]) == ls[1..];
      ContainsStep(ls, lp);
    } else {
      ContainsInEmpty(ls, lp);
    }
  }

  lemma {:induction false} StartsAtZero(s: string, p: string)
    ensures StartsWithIgnoreCase(s, p) <==> OccursAt(LowerString(s), LowerString(p), 0)
  {
    StartsWithIgnoreCaseSpec(s, p);
    if |p| <= |s| {
      assert LowerString(s[..|p|]) == LowerString(s)[..|p|];
    }
  }

  /** A text contains a pattern when it starts with it or its tail
      contains it. */
  lemma {:induction false} ContainsStep(t: string, p: string)
    requires |t| > 0
    ensures Contains(t, p) <==> OccursAt(t, p, 0) || Contains(t[1..], p)
  {
    if Contains(t[1..], p) {
      var i :| 0 <= i <= |t[1..]| - |p| && OccursAt(t[1..], p, i);
      assert t[i + 1..i + 1 + |p|] == t[1..][i..i + |p|];
      assert OccursAt(t, p, i + 1);
    }
    if Contains(t, p) {
      var i :| 0 <= i <= |t| - |p| && OccursAt(t, p, i);
      if i > 0 {
        assert t[1..][i - 1..i - 1 + |p|] == t[i..i + |p|];
        assert OccursAt(t[1..], p, i - 1);
      }
    }
  }

  lemma {:induction false} ContainsInEmpty(t: string, p: string)
    requires |t| == 0
    ensures Contains(t, p) <==> OccursAt(t, p, 0)
  {
    if Contains(t, p) {
      var i :| 0 <= i <= |t| - |p| && OccursAt(t, p, i);
      assert i == 0;
    }
  }

  predicate PatternTest(pat: BotPattern, userAgent: string)
  {
    match pat
    case Literal(t) => ContainsIgnoreCase(userAgent, t)
    case Either(a, b) => ContainsIgnoreCase(userAgent, a) || ContainsIgnoreCase(userAgent, b)
  }

  /** `botPatterns.some(pattern => pattern.test(userAgent))`. */
  predicate AnyPatternMatches(pats: seq<BotPattern>, userAgent: string)
    decreases |pats|
  {
    |pats| > 0 && (PatternTest(pats[0], userAgent) || AnyPatternMatches(pats[1..], userAgent))
  }

  /** Every literal a pattern list can match, the alternation spelled out. */
  function Literals(pats: seq<BotPattern>): (lits: seq<string>)
    decreases |pats|
  {
    if pats == [] then []
    else (match pats[0]
          case Literal(t) => [t]
          case Either(a, b) => [a, b]) + Literals(pats[1..])
  }

  lemma {:induction false} AnyPatternMatchesSpec(pats: seq<BotPattern>, userAgent: string)
    ensures AnyPatternMatches(pats, userAgent) <==>
      exists lit :: lit in Literals(pats) && Contains(LowerString(userAgent), LowerString(lit))
    decreases |pats|
  {
    if pats != [] {
      AnyPatternMatchesSpec(pats[1..], userAgent);
      var head := match pats[0] case Literal(t) => [t] case Either(a, b) => [a, b];
      assert Literals(pats) == head + Literals(pats[1..]);
      forall lit | lit in head
        ensures ContainsIgnoreCase(userAgent, lit) <==> Contains(LowerString(userAgent), LowerString(lit))
      {
        ContainsIgnoreCaseSpec(userAgent, lit);
      }
      if PatternTest(pats[0], userAgent) {
        var lit :| lit in head && ContainsIgnoreCase(userAgent, lit);
        assert lit in Literals(pats);
      }
    }
  }

  /** `isBot`: a listed pattern occurs (ignoring case), or the user agent is
      shorter than 20 characters, or it lacks the case-sensitive marker
      `Mozilla`. In every other case the agent counts as a browser. */
  function IsBot(userAgent: string): (r: bool)
    ensures !r <==>
      |userAgent| >= 20 && Contains(userAgent, "Mozilla")
      && forall lit :: lit in Literals(BotPatterns) ==> !Contains(LowerString(userAgent), LowerString(lit))
  {
    AnyPatternMatchesSpec(BotPatterns, userAgent);
    if AnyPatternMatches(BotPatterns, userAgent) then true
    else if |userAgent| < 20 || !Contains(userAgent, "Mozilla") then true
    else false
  }

  /** Every literal of every listed pattern, both halves of the alternation
      included, marks a user agent containing it (in any case) as a bot. */
  lemma {:induction false} ListedPatternMakesBot(k: nat, lit: string, userAgent: string)
    requires k < |BotPatterns| && PatternLiteral(BotPatterns[k], lit)
    requires Contains(LowerString(userAgent), LowerString(lit))
    ensures IsBot(userAgent)
  {
    LiteralAt(BotPatterns, k, lit);
  }

  /** A literal of the pattern at index `k` is among the literals. */
  lemma {:induction false} LiteralAt(pats: seq<BotPattern>, k: nat, lit: string)
    requires k < |pats| && PatternLiteral(pats[k], lit)
    ensures lit in Literals(pats)
    decreases k
  {
    if k > 0 {
      assert pats[1..][k - 1] == pats[k];
      LiteralAt(pats[1..], k - 1, lit);
    }
  }

  predicate PatternLiteral(p: BotPattern, lit: string)
  {
    match p
    case Literal(t) => t == lit
    case Either(a, b) => a == lit || b == lit
  }

  // ---------------------------------------------------------------------
  // The visitors table

  /** A row of the `visitors` table; the table's own row id is left out. */
  datatype VisitorRow = VisitorRow(visitorId: string, date: string)

  predicate HasRowOn(rows: seq<VisitorRow>, id: string, day: string)
  {
    VisitorRow(id, day) in rows
  }

  predicate HasVisitor(rows: seq<VisitorRow>, id: string)
  {
    exists i | 0 <= i < |rows| :: rows[i].visitorId == id
  }

  /** The ledger's uniqueness invariant: no (visitor id, date) pair twice. */
  predicate OnePerDay(rows: seq<VisitorRow>)
  {
    forall i, j :: 0 <= i < j < |rows| ==> rows[i] != rows[j]
  }

  /** Which of the three database calls of `addVisitor` report an error. A
      failed lookup yields a null result set. */
  datatype LedgerFaults = LedgerFaults(dailyLookupFails: bool, totalLookupFails: bool, insertFails: bool)

  const NoFaults := LedgerFaults(false, false, false)

  datatype AddResult = AddResult(success: bool, isNewDailyVisitor: bool, isNewTotalVisitor: bool)

  /** What one `addVisitor` call returns and what the table holds after it. */
  datatype AddOutcome = AddOutcome(result: AddResult, rows: seq<VisitorRow>)

  /** `addVisitor` on the abstract table: both lookups, then an insert only
      for a new daily visitor; a failed insert reports failure with both
      flags false and leaves the table as it was. */
  function AddVisitorStep(rows: seq<VisitorRow>, id: string, today: string, faults: LedgerFaults): (o: AddOutcome)
    ensures o.rows == rows || o.rows == rows + [VisitorRow(id, today)]
    ensures o.rows != rows <==> o.result.success && o.result.isNewDailyVisitor
    ensures o.result.success <==> !((faults.dailyLookupFails || !HasRowOn(rows, id, today)) && faults.insertFails)
    ensures o.result.success ==>
      (o.result.isNewDailyVisitor <==> faults.dailyLookupFails || !HasRowOn(rows, id, today))
      && (o.result.isNewTotalVisitor <==> faults.totalLookupFails || !HasVisitor(rows, id))
    ensures !o.result.success ==> o.result == AddResult(false, false, false) && o.rows == rows
  {
    var isNewDaily := faults.dailyLookupFails || !HasRowOn(rows, id, today);
    var isNewTotal := faults.totalLookupFails || !HasVisitor(rows, id);
    if isNewDaily && faults.insertFails then AddOutcome(AddResult(false, false, false), rows)
    else if isNewDaily then AddOutcome(AddResult(true, true, isNewTotal), rows + [VisitorRow(id, today)])
    else AddOutcome(AddResult(true, false, isNewTotal), rows)
  }

  /** A successful daily lookup is what keeps the table free of repeated
      (visitor, day) rows. */
  lemma {:induction false} AddVisitorKeepsOnePerDay(rows: seq<VisitorRow>, id: string, today: string, faults: LedgerFaults)
    requires OnePerDay(rows) && !faults.dailyLookupFails
    ensures OnePerDay(AddVisitorStep(rows, id, today, faults).rows)
  {
    var o := AddVisitorStep(rows, id, today, faults);
    if o.rows != rows {
      forall i, j | 0 <= i < j < |o.rows| ensures o.rows[i] != o.rows[j] {
        if j == |rows| {
          assert o.rows[i] == rows[i];
        }
      }
    }
  }

  /** When the daily lookup fails, a repeat visit on the same day is
      inserted a second time. */
  lemma {:induction false} FailedDailyLookupDuplicates(id: string, today: string)
    ensures var rows := [VisitorRow(id, today)];
      !OnePerDay(AddVisitorStep(rows, id, today, LedgerFaults(true, false, false)).rows)
  {
    var o := AddVisitorStep([VisitorRow(id, today)], id, today, LedgerFaults(true, false, false));
    assert o.rows[0] == o.rows[1];
  }

  /** The lookups and the insert are separate queries with no transaction
      around them. Two overlapping requests of the same visitor that both
      run their lookups before either inserts both find no row for today,
      and both insert one: the table then holds the same row twice. */
  lemma {:induction false} OverlappingAddsDuplicate(rows: seq<VisitorRow>, id: string, today: string)
    requires !HasRowOn(rows, id, today)
    ensures var a := AddVisitorStep(rows, id, today, NoFaults);
      var b := AddVisitorStep(rows, id, today, NoFaults);
      var both := rows + [VisitorRow(id, today), VisitorRow(id, today)];
      && a.result.isNewDailyVisitor && b.result.isNewDailyVisitor
      && a.rows == b.rows == rows + [VisitorRow(id, today)]
      && !OnePerDay(both)
  {
    var both := rows + [VisitorRow(id, today), VisitorRow(id, today)];
    assert both[|rows|] == both[|rows| + 1];
  }

  /** The same visitor twice on one day: new, then not new; on a later day
      new for the day again but no longer new overall. */
  lemma {:induction false} RepeatVisits(rows: seq<VisitorRow>, id: string, today: string, tomorrow: string)
    requires !HasRowOn(rows, id, today) && !HasRowOn(rows, id, tomorrow) && today != tomorrow
    ensures var first := AddVisitorStep(rows, id, today, NoFaults);
      var second := AddVisitorStep(first.rows, id, today, NoFaults);
      var third := AddVisitorStep(second.rows, id, tomorrow, NoFaults);
      first.result.isNewDailyVisitor && !second.result.isNewDailyVisitor && !second.result.isNewTotalVisitor
      && second.rows == first.rows
      && third.result.isNewDailyVisitor && !third.result.isNewTotalVisitor
  {
    var first := AddVisitorStep(rows, id, today, NoFaults);
    assert first.rows[|rows|] == VisitorRow(id, today);
    assert HasVisitor(first.rows, id);
    assert !HasRowOn(first.rows, id, tomorrow);
  }

  /** The `visitors` table with its rows; the methods perform the queries
      and the insert of the storage functions. */
  class VisitorsTable {
    var rows: seq<VisitorRow>

    constructor (initial: seq<VisitorRow>)
      ensures rows == initial
    {
      rows := initial;
    }

    /** `addVisitor(ip, userAgent)`, with "today" and the database faults
        supplied by the caller. */
    method AddVisitor(ip: string, userAgent: string, today: string, faults: LedgerFaults) returns (r: AddResult)
      modifies this
      ensures AddOutcome(r, rows) == AddVisitorStep(old(rows), VisitorId(ip, userAgent), today, faults)
      ensures OnePerDay(old(rows)) && !faults.dailyLookupFails ==> OnePerDay(rows)
    {
      var visitorId := VisitorId(ip, userAgent);
      var existingToday := if faults.dailyLookupFails then None else Some(HasRowOn(rows, visitorId, today));
      var isNewDailyVisitor := existingToday == None || existingToday == Some(false);
      var existingTotal := if faults.totalLookupFails then None else Some(HasVisitor(rows, visitorId));
      var isNewTotalVisitor := existingTotal == None || existingTotal == Some(false);
      if isNewDailyVisitor {
        if faults.insertFails {
          return AddResult(false, false, false);
        }
        rows := rows + [VisitorRow(visitorId, today)];
      }
      r := AddResult(true, isNewDailyVisitor, isNewTotalVisitor);
      if OnePerDay(old(rows)) && !faults.dailyLookupFails {
        AddVisitorKeepsOnePerDay(old(rows), visitorId, today, faults);
      }
    }
  }

  // ---------------------------------------------------------------------
  // Statistics

  datatype VisitorStats = VisitorStats(dailyVisitors: nat, totalVisitors: nat)

  /** Number of rows dated `day` (the exact count of the first query). */
  function CountOn(rows: seq<VisitorRow>, day: string): (n: nat)
    ensures n <= |rows|
  {
    if rows == [] then 0
    else CountOn(rows[..|rows| - 1], day) + (if rows[|rows| - 1].date == day then 1 else 0)
  }

  function IdsOn(rows: seq<VisitorRow>, day: string): set<string>
  {
    set i | 0 <= i < |rows| && rows[i].date == day :: rows[i].visitorId
  }

  function AllIds(rows: seq<VisitorRow>): set<string>
  {
    set i | 0 <= i < |rows| :: rows[i].visitorId
  }

  /** `getVisitorStats`: the rows dated today (0 when the count fails) and
      the number of distinct visitor ids over all rows (0 when the listing
      fails). */
  function GetVisitorStats(rows: seq<VisitorRow>, today: string, countFails: bool, listFails: bool): (s: VisitorStats)
    ensures s.dailyVisitors <= |rows| && s.totalVisitors <= |rows|
    ensures s.dailyVisitors == (if countFails then 0 else CountOn(rows, today))
    ensures s.totalVisitors == (if listFails then 0 else |AllIds(rows)|)
  {
    AllIdsBound(rows);
    VisitorStats(if countFails then 0 else CountOn(rows, today),
                 if listFails then 0 else |AllIds(rows)|)
  }

  lemma {:induction false} AllIdsBound(rows: seq<VisitorRow>)
    ensures |AllIds(rows)| <= |rows|
    decreases |rows|
  {
    if rows != [] {
      var init := rows[..|rows| - 1];
      AllIdsBound(init);
      assert AllIds(rows) == AllIds(init) + {rows[|rows| - 1].visitorId} by {
        forall x | x in AllIds(rows) ensures x in AllIds(init) + {rows[|rows| - 1].visitorId} {
          var i :| 0 <= i < |rows| && rows[i].visitorId == x;
          if i < |rows| - 1 { assert init[i] == rows[i]; }
        }
        forall x | x in AllIds(init) ensures x in AllIds(rows) {
          var i :| 0 <= i < |init| && init[i].visitorId == x;
          assert rows[i] == init[i];
        }
      }
    }
  }

  /** With one row per visitor per day, the daily row count is the number
      of distinct visitors of that day. */
  lemma {:induction false} DailyCountIsDistinctVisitors(rows: seq<VisitorRow>, day: string)
    requires OnePerDay(rows)
    ensures CountOn(rows, day) == |IdsOn(rows, day)|
    decreases |rows|
  {
    if rows != [] {
      var init, last := rows[..|rows| - 1], rows[|rows| - 1];
      InitOnePerDay(rows);
      DailyCountIsDistinctVisitors(init, day);
      IdsOnSnoc(rows, day);
      if last.date == day {
        LastIsNewOnItsDay(rows);
      }
    }
  }

  lemma {:induction false} InitOnePerDay(rows: seq<VisitorRow>)
    requires OnePerDay(rows) && rows != []
    ensures OnePerDay(rows[..|rows| - 1])
  {
    var init := rows[..|rows| - 1];
    forall i, j | 0 <= i < j < |init| ensures init[i] != init[j] {
      assert init[i] == rows[i] && init[j] == rows[j];
    }
  }

  /** The ids of a day after one more row. */
  lemma {:induction false} IdsOnSnoc(rows: seq<VisitorRow>, day: string)
    requires rows != []
    ensures var init, last := rows[..|rows| - 1], rows[|rows| - 1];
      IdsOn(rows, day) == if last.date == day then IdsOn(init, day) + {last.visitorId} else IdsOn(init, day)
  {
    var init, last := rows[..|rows| - 1], rows[|rows| - 1];
    var before := IdsOn(init, day);
    forall x | x in IdsOn(rows, day) ensures x in before || (last.date == day && x == last.visitorId) {
      var i :| 0 <= i < |rows| && rows[i].date == day && rows[i].visitorId == x;
      if i < |rows| - 1 { assert init[i] == rows[i]; }
    }
    forall x | x in before ensures x in IdsOn(rows, day) {
      var i :| 0 <= i < |init| && init[i].date == day && init[i].visitorId == x;
      assert rows[i] == init[i];
    }
  }

  /** Under one row per visitor per day, the last row's visitor has no
      earlier row on that day. */
  lemma {:induction false} LastIsNewOnItsDay(rows: seq<VisitorRow>)
    requires OnePerDay(rows) && rows != []
    ensures var last := rows[|rows| - 1];
      last.visitorId !in IdsOn(rows[..|rows| - 1], last.date)
  {
    var init, last := rows[..|rows| - 1], rows[|rows| - 1];
    forall i | 0 <= i < |init| && init[i].date == last.date ensures init[i].visitorId != last.visitorId {
      assert init[i] == rows[i] != last;
    }
  }

  lemma {:induction false} IdsOnSubset(rows: seq<VisitorRow>, day: string)
    ensures IdsOn(rows, day) <= AllIds(rows)
  {
  }

  lemma {:induction false} SubsetCard<T>(a: set<T>, b: set<T>)
    requires a <= b
    ensures |a| <= |b|
    decreases |b|
  {
    if b != {} {
      var x :| x in b;
      SubsetCard(a - {x}, b - {x});
    }
  }

  /** With one row per visitor per day and both queries answered, today's
      visitors never outnumber all-time visitors. */
  lemma {:induction false} DailyAtMostTotal(rows: seq<VisitorRow>, today: string)
    requires OnePerDay(rows)
    ensures GetVisitorStats(rows, today, false, false).dailyVisitors <= GetVisitorStats(rows, today, false, false).totalVisitors
  {
    DailyCountIsDistinctVisitors(rows, today);
    IdsOnSubset(rows, today);
    SubsetCard(IdsOn(rows, today), AllIds(rows));
  }
}
