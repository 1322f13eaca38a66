/** The tiered kill source, fetch_recent_redsec_kills (app.py:52-117): kills
    scraped from the tracker's match rows, else kills made up from the
    stats service's lifetime total, else three demonstration kills; the list
    is cut to `limit`. The pages and replies are inputs; what the code draws
    at random (hours back, weapons, demo victims, demo match numbers) is
    chosen freely within the ranges the code gives, so each tier is
    specified by a list of kill plans that every outcome realizes. */
module KillSource {
  import opened Py

  /** One kill as the dictionaries the function appends. The time is in
      whole seconds. */
  datatype Kill = Kill(victim: string, killTime: int, matchId: string, weapon: string)

  // ---------------------------------------------------------------------
  // Inputs
  // ---------------------------------------------------------------------

  /** A `match-row` of the tracker page: the stripped text of its mode cell
      ("" when it has none), the stripped text of its kills cell (None when
      it has none), and the match id its link gives ("Unknown" when it has
      no match link). */
  datatype ScrapedRow = ScrapedRow(mode: string, killsCell: Option<string>, matchId: string)

  /** What the tracker request gave: an exception, or a reply with its
      status code and the page's match rows in page order. */
  datatype TrackerFetch = TrackerRaised | TrackerReply(status: int, rows: seq<ScrapedRow>)

  /** The body of a 200 stats reply: not JSON (resp.json() raises), or the
      `kills` field, None when the key is absent. */
  datatype StatsBody = StatsNotJson | StatsJson(kills: Option<int>)

  /** What the stats request gave. */
  datatype StatsFetch = StatsRaised | StatsReply(status: int, body: StatsBody)

  /** plat_map: the tracker's name for each platform the form offers. */
  const PlatformMap: map<string, string> := map["pc" := "origin", "psn" := "psn", "xbl" := "xbox"]

  /** plat_map.get(platform, 'origin'). */
  function TrackerPlatform(platform: string): string {
    if platform in PlatformMap then PlatformMap[platform] else "origin"
  }

  // ---------------------------------------------------------------------
  // Kill plans: what each appended kill is allowed to be
  // ---------------------------------------------------------------------

  /** A string the code fixes, or one it picks with random.choice. */
  datatype Choice = Exactly(value: string) | OneOf(options: seq<string>)

  /** A match id the code fixes, or f"DEMO-{random.randint(10000, 99999)}". */
  datatype IdChoice = FixedId(id: string) | RandomDemoId

  /** One appended kill: its victim, its match id, the range random.randint
      draws its hours back from, and its weapon. */
  datatype KillPlan = KillPlan(victim: Choice, matchId: IdChoice, minHours: int, maxHours: int, weapon: Choice)

  predicate Chosen(c: Choice, s: string) {
    match c
    case Exactly(v) => s == v
    case OneOf(options) => s in options
  }

  predicate IsDemoId(id: string) {
    exists n :: 10000 <= n <= 99999 && id == "DEMO-" + NatToString(n)
  }

  predicate IdFits(c: IdChoice, id: string) {
    match c
    case FixedId(fixed) => id == fixed
    case RandomDemoId => IsDemoId(id)
  }

  /** The time lies a whole number of hours before now, within [lo, hi]. */
  predicate HoursBefore(now: int, time: int, lo: int, hi: int) {
    (now - time) % 3600 == 0 && lo <= (now - time) / 3600 <= hi
  }

  predicate Realizes(k: Kill, p: KillPlan, now: int) {
    && Chosen(p.victim, k.victim)
    && IdFits(p.matchId, k.matchId)
    && HoursBefore(now, k.killTime, p.minHours, p.maxHours)
    && Chosen(p.weapon, k.weapon)
  }

  /** The kills realize the plans one for one, in order. */
  predicate RealizesAll(kills: seq<Kill>, plans: seq<KillPlan>, now: int) {
    |kills| == |plans| && forall i :: 0 <= i < |kills| ==> Realizes(kills[i], plans[i], now)
  }

  const ScrapeWeapons: seq<string> := ["NTW-50", "M5A3", "GOL Sniper"]
  const DemoVictims: seq<string> := ["xQc", "Valkyrae", "Swagg"]
  const DemoWeapons: seq<string> := ["NTW-50 Sniper", "M5A3 Vector", "GOL Magnum"]

  /** f"{prefix}{i+1}". */
  function Label(prefix: string, i: nat): string {
    prefix + NatToString(i + 1)
  }

  // ---------------------------------------------------------------------
  // The three tiers
  // ---------------------------------------------------------------------

  /** 'RedSec' in mode or 'BR' in mode. */
  predicate IsRedSecMode(mode: string) {
    Contains(mode, "RedSec") || Contains(mode, "BR")
  }

  /** The kill count of a qualifying row: int() of the kills cell, 0 when
      there is none; None where int() raises. */
  function RowKillCount(row: ScrapedRow): Option<int> {
    match row.killsCell
    case None => Some(0)
    case Some(text) => ParseInt(text)
  }

  /** The kills one qualifying row yields: min(kill_count, 3) of them, none
      when the count is negative. */
  function RowPlans(matchId: string, count: int): seq<KillPlan> {
    seq(Max(0, Min(count, 3)), i requires 0 <= i =>
      KillPlan(Exactly(Label("Victim", i)), FixedId(matchId), 1, 24, OneOf(ScrapeWeapons)))
  }

  /** A qualifying row whose kills cell int() rejects: the exception ends
      the scrape, keeping what earlier rows gave. */
  predicate RowRaises(row: ScrapedRow) {
    IsRedSecMode(row.mode) && RowKillCount(row).None?
  }

  /** The scrape loop over the rows, in page order. */
  function ScrapePlans(rows: seq<ScrapedRow>): seq<KillPlan> {
    if rows == [] then []
    else if !IsRedSecMode(rows[0].mode) then ScrapePlans(rows[1..])
    else
      match RowKillCount(rows[0])
      case None => []
      case Some(count) => RowPlans(rows[0].matchId, count) + ScrapePlans(rows[1..])
  }

  /** The scrape tier: only a 200 reply is read, and only its first `limit`
      rows (soup.find_all(...)[:limit]). */
  function ScrapeTier(tracker: TrackerFetch, limit: int): seq<KillPlan> {
    match tracker
    case TrackerRaised => []
    case TrackerReply(status, rows) => if status == 200 then ScrapePlans(Take(rows, limit)) else []
  }

  /** min(5, total_kills // 20); `//` floors, as `/` does for a positive divisor. */
  function StatsCount(total: int): int {
    Min(5, total / 20)
  }

  /** The stats tier's kills: f"RedSecPlayer{i+1}" with a random demo match id. */
  function StatsPlans(count: int): seq<KillPlan> {
    seq(Max(0, count), i requires 0 <= i =>
      KillPlan(Exactly(Label("RedSecPlayer", i)), RandomDemoId, 1, 48, OneOf(ScrapeWeapons)))
  }

  /** The stats tier: only a 200 reply whose body is JSON is read, and a
      missing `kills` key counts as 0. */
  function StatsTier(stats: StatsFetch): seq<KillPlan> {
    match stats
    case StatsRaised => []
    case StatsReply(status, body) =>
      if status != 200 then []
      else
        match body
        case StatsNotJson => []
        case StatsJson(kills) => StatsPlans(StatsCount(match kills case None => 0 case Some(t) => t))
  }

  /** The demonstration tier: three kills, match ids DEMO-MATCH-1..3 and
      the demo weapons in list order. */
  function DemoPlans(): seq<KillPlan> {
    seq(3, i requires 0 <= i < 3 =>
      KillPlan(OneOf(DemoVictims), FixedId(Label("DEMO-MATCH-", i)), 1, 12, Exactly(DemoWeapons[i])))
  }

  /** The whole function: each later tier is consulted only while the list
      is empty, and the result is kills[:limit]. */
  function KillPlans(tracker: TrackerFetch, stats: StatsFetch, limit: int): seq<KillPlan> {
    var scraped := ScrapeTier(tracker, limit);
    var sourced := if scraped != [] then scraped else StatsTier(stats);
    Take(if sourced != [] then sourced else DemoPlans(), limit)
  }

  // ---------------------------------------------------------------------
  // The scrape loop as written
  // ---------------------------------------------------------------------

  /** The scrape loop as the code is written: the first qualifying row
      evaluates re.compile(...) while `re` was never imported, so the
      NameError ends the scrape before that row appends anything (and int()
      on the kills cell, evaluated first, can only raise earlier). */
  function ScrapePlansAsWritten(rows: seq<ScrapedRow>): seq<KillPlan> {
    if rows == [] then []
    else if !IsRedSecMode(rows[0].mode) then ScrapePlansAsWritten(rows[1..])
    else []
  }

  function ScrapeTierAsWritten(tracker: TrackerFetch, limit: int): seq<KillPlan> {
    match tracker
    case TrackerRaised => []
    case TrackerReply(status, rows) => if status == 200 then ScrapePlansAsWritten(Take(rows, limit)) else []
  }

  /** As written, the scrape tier never yields a kill. */
  lemma {:induction false} ScrapeAsWrittenIsEmpty(rows: seq<ScrapedRow>)
    ensures ScrapePlansAsWritten(rows) == []
  {
    if rows != [] && !IsRedSecMode(rows[0].mode) {
      ScrapeAsWrittenIsEmpty(rows[1..]);
    }
  }

  /** A page with one RedSec row of two kills: the intended scrape yields two
      kills, the code as written none. */
  lemma ScrapeFindingExample()
    ensures var page := TrackerReply(200, [ScrapedRow("RedSec Duos", Some("2"), "12345")]);
            && |ScrapeTier(page, 20)| == 2
            && ScrapeTierAsWritten(page, 20) == []
  {
    var row := ScrapedRow("RedSec Duos", Some("2"), "12345");
    assert StartsWith(row.mode, "RedSec");
    ParseIntOfIntToString(2);
    assert IntToString(2) == "2";
    assert Take([row], 20) == [row];
    assert [row][1..] == [];
  }

  // ---------------------------------------------------------------------
  // What the tiers promise
  // ---------------------------------------------------------------------

  /** Unknown platforms fall back to 'origin'. */
  lemma PlatformFallback(platform: string)
    ensures TrackerPlatform(platform) in {"origin", "psn", "xbox"}
    ensures platform != "pc" && platform != "psn" && platform != "xbl" ==> TrackerPlatform(platform) == "origin"
  {
  }

  /** The number of kills a row contributes when it does not raise. */
  function RowYield(row: ScrapedRow): nat
    requires !RowRaises(row)
  {
    if IsRedSecMode(row.mode) then Max(0, Min(RowKillCount(row).value, 3)) else 0
  }

  function TotalYield(rows: seq<ScrapedRow>): nat
    requires forall i :: 0 <= i < |rows| ==> !RowRaises(rows[i])
  {
    if rows == [] then 0 else RowYield(rows[0]) + TotalYield(rows[1..])
  }

  /** With no raising row, the scrape yields min(kill_count, 3) kills per
      qualifying row and none for the others. */
  lemma {:induction false} ScrapeCount(rows: seq<ScrapedRow>)
    requires forall i :: 0 <= i < |rows| ==> !RowRaises(rows[i])
    ensures |ScrapePlans(rows)| == TotalYield(rows)
  {
    if rows != [] {
      ScrapeCount(rows[1..]);
    }
  }

  /** A raising row ends the scrape: only the rows before it count. */
  lemma {:induction false} ScrapeStopsAtRaise(rows: seq<ScrapedRow>, i: nat)
    requires i < |rows| && RowRaises(rows[i])
    ensures ScrapePlans(rows) == ScrapePlans(rows[..i])
  {
    if i == 0 {
      assert rows[..0] == [];
    } else {
      ScrapeStopsAtRaise(rows[1..], i - 1);
      assert rows[1..][..i - 1] == rows[..i][1..];
    }
  }

  /** Every scraped kill is a "VictimN" of a qualifying row, from 1 to 24
      hours ago, with one of the scrape weapons. */
  lemma {:induction false} ScrapedKillShape(rows: seq<ScrapedRow>)
    ensures forall p :: p in ScrapePlans(rows) ==>
              && p.matchId.FixedId?
              && p.minHours == 1 && p.maxHours == 24
              && p.weapon == OneOf(ScrapeWeapons)
              && exists i: nat :: i < 3 && p.victim == Exactly(Label("Victim", i))
  {
    if rows != [] {
      ScrapedKillShape(rows[1..]);
    }
  }

  /** The stats tier yields min(5, total_kills // 20) kills (none for a
      negative count), named RedSecPlayer1, RedSecPlayer2, ... in order. */
  lemma StatsTierCount(total: Option<int>)
    ensures var t := match total case None => 0 case Some(k) => k;
            var plans := StatsTier(StatsReply(200, StatsJson(total)));
            && |plans| == Max(0, Min(5, t / 20))
            && |plans| <= 5
            && forall i :: 0 <= i < |plans| ==>
                 plans[i] == KillPlan(Exactly(Label("RedSecPlayer", i)), RandomDemoId, 1, 48, OneOf(ScrapeWeapons))
  {
  }

  /** Fewer than 20 lifetime kills, or a missing count, give no stats kills;
      so does any reply but a 200 with a JSON body. */
  lemma StatsTierEmpty(stats: StatsFetch)
    requires || stats.StatsRaised?
             || (stats.StatsReply? && (stats.status != 200 || stats.body.StatsNotJson?))
             || (stats.StatsReply? && stats.body.StatsJson? &&
                 (stats.body.kills.None? || stats.body.kills.value < 20))
    ensures StatsTier(stats) == []
  {
  }

  /** The demonstration tier: exactly three kills, DEMO-MATCH-1..3, the demo
      weapons in order, victims drawn from the demo list, 1 to 12 hours ago. */
  lemma DemoTierShape()
    ensures |DemoPlans()| == 3
    ensures DemoPlans()[0].matchId == FixedId("DEMO-MATCH-1") && DemoPlans()[0].weapon == Exactly("NTW-50 Sniper")
    ensures DemoPlans()[1].matchId == FixedId("DEMO-MATCH-2") && DemoPlans()[1].weapon == Exactly("M5A3 Vector")
    ensures DemoPlans()[2].matchId == FixedId("DEMO-MATCH-3") && DemoPlans()[2].weapon == Exactly("GOL Magnum")
    ensures forall i :: 0 <= i < 3 ==>
              DemoPlans()[i].victim == OneOf(["xQc", "Valkyrae", "Swagg"]) &&
              DemoPlans()[i].minHours == 1 && DemoPlans()[i].maxHours == 12
  {
    assert NatToString(1) == "1" && NatToString(2) == "2" && NatToString(3) == "3";
  }

  /** A later tier is consulted only when every earlier one is empty. */
  lemma TiersInOrder(tracker: TrackerFetch, stats: StatsFetch, limit: int)
    ensures ScrapeTier(tracker, limit) != [] ==>
              KillPlans(tracker, stats, limit) == Take(ScrapeTier(tracker, limit), limit)
    ensures ScrapeTier(tracker, limit) == [] && StatsTier(stats) != [] ==>
              KillPlans(tracker, stats, limit) == Take(StatsTier(stats), limit)
    ensures ScrapeTier(tracker, limit) == [] && StatsTier(stats) == [] ==>
              KillPlans(tracker, stats, limit) == Take(DemoPlans(), limit)
  {
  }

  /** The result holds at most `limit` kills, and at least one whenever
      limit is positive: the demonstration tier always fills an empty list. */
  lemma KillPlansBounds(tracker: TrackerFetch, stats: StatsFetch, limit: int)
    ensures limit >= 0 ==> |KillPlans(tracker, stats, limit)| <= limit
    ensures limit > 0 ==> |KillPlans(tracker, stats, limit)| > 0
  {
  }

  /** Each row read yields at most three kills. */
  lemma {:induction false} ScrapeAtMostThreePerRow(rows: seq<ScrapedRow>)
    ensures |ScrapePlans(rows)| <= 3 * |rows|
  {
    if rows != [] {
      ScrapeAtMostThreePerRow(rows[1..]);
    }
  }

  /** Only the first limit rows are read, so with a non-negative limit the
      scrape tier yields at most 3 * limit kills. */
  lemma ScrapeTierAtMostThreeTimesLimit(tracker: TrackerFetch, limit: int)
    requires limit >= 0
    ensures |ScrapeTier(tracker, limit)| <= 3 * limit
  {
    if tracker.TrackerReply? && tracker.status == 200 {
      ScrapeAtMostThreePerRow(Take(tracker.rows, limit));
    }
  }

  // ---------------------------------------------------------------------
  // The function itself, with its random draws
  // ---------------------------------------------------------------------

  /** now - timedelta(hours=h), in seconds. */
  lemma HoursAgo(now: int, h: int, lo: int, hi: int)
    requires lo <= h <= hi
    ensures HoursBefore(now, now - h * 3600, lo, hi)
  {
    assert now - (now - h * 3600) == h * 3600;
  }

  /** Matched lists joined end to end stay matched. */
  lemma RealizesConcat(a: seq<Kill>, pa: seq<KillPlan>, b: seq<Kill>, pb: seq<KillPlan>, now: int)
    requires RealizesAll(a, pa, now) && RealizesAll(b, pb, now)
    ensures RealizesAll(a + b, pa + pb, now)
  {
    assert forall i :: |a| <= i < |a| + |b| ==> (a + b)[i] == b[i - |a|] && (pa + pb)[i] == pb[i - |a|];
  }

  /** The kill loop of one qualifying row: min(kill_count, 3) kills sharing
      the row's time. */
  method RowKills(matchId: string, count: int, killTime: int, now: int) returns (kills: seq<Kill>)
    requires HoursBefore(now, killTime, 1, 24)
    ensures RealizesAll(kills, RowPlans(matchId, count), now)
    ensures forall k :: k in kills ==> k.killTime == killTime
  {
    kills := [];
    ghost var plans := RowPlans(matchId, count);
    var i := 0;
    while i < Min(count, 3)
      invariant 0 <= i <= |plans|
      invariant RealizesAll(kills, plans[..i], now)
      invariant forall k :: k in kills ==> k.killTime == killTime
    {
      assert ScrapeWeapons[0] in ScrapeWeapons;
      var weapon :| weapon in ScrapeWeapons;
      kills := kills + [Kill(Label("Victim", i), killTime, matchId, weapon)];
      assert plans[..i + 1] == plans[..i] + [plans[i]];
      i := i + 1;
    }
    assert plans[..i] == plans;
  }

  /** The scrape tier: the row loop and, per qualifying row, the kill loop. */
  method ScrapeKills(tracker: TrackerFetch, limit: int, now: int) returns (kills: seq<Kill>)
    ensures RealizesAll(kills, ScrapeTier(tracker, limit), now)
  {
    kills := [];
    if tracker.TrackerRaised? || tracker.status != 200 {
      return;
    }
    var rows := Take(tracker.rows, limit);
    ghost var plans: seq<KillPlan> := [];
    var j := 0;
    while j < |rows|
      invariant 0 <= j <= |rows|
      invariant plans + ScrapePlans(rows[j..]) == ScrapePlans(rows)
      invariant RealizesAll(kills, plans, now)
    {
      var row := rows[j];
      assert rows[j..][1..] == rows[j + 1..];
      if IsRedSecMode(row.mode) {
        var count := RowKillCount(row);
        if count.None? {
          assert plans == ScrapePlans(rows);
          break;
        }
        var h :| 1 <= h <= 24;
        var killTime := now - h * 3600;
        HoursAgo(now, h, 1, 24);
        var rowKills := RowKills(row.matchId, count.value, killTime, now);
        RealizesConcat(kills, plans, rowKills, RowPlans(row.matchId, count.value), now);
        kills := kills + rowKills;
        plans := plans + RowPlans(row.matchId, count.value);
      }
      j := j + 1;
    }
    assert rows[|rows|..] == [];
  }

  /** The stats tier: demo_count kills from the lifetime total. */
  method StatsKills(stats: StatsFetch, now: int) returns (kills: seq<Kill>)
    ensures RealizesAll(kills, StatsTier(stats), now)
  {
    kills := [];
    if stats.StatsRaised? || stats.status != 200 || stats.body.StatsNotJson? {
      return;
    }
    var total := if stats.body.kills.Some? then stats.body.kills.value else 0;
    var count := Min(5, total / 20);
    ghost var plans := StatsTier(stats);
    var i := 0;
    while i < count
      invariant 0 <= i <= |plans|
      invariant RealizesAll(kills, plans[..i], now)
    {
      var h :| 1 <= h <= 48;
      HoursAgo(now, h, 1, 48);
      var n :| 10000 <= n <= 99999;
      assert ScrapeWeapons[0] in ScrapeWeapons;
      var weapon :| weapon in ScrapeWeapons;
      kills := kills + [Kill(Label("RedSecPlayer", i), now - h * 3600, "DEMO-" + NatToString(n), weapon)];
      assert plans[..i + 1] == plans[..i] + [plans[i]];
      i := i + 1;
    }
    assert plans[..i] == plans;
  }

  /** The demonstration tier: three kills. */
  method DemoKills(now: int) returns (kills: seq<Kill>)
    ensures RealizesAll(kills, DemoPlans(), now)
  {
    kills := [];
    ghost var plans := DemoPlans();
    for i := 0 to 3
      invariant RealizesAll(kills, plans[..i], now)
    {
      assert DemoVictims[0] in DemoVictims;
      var victim :| victim in DemoVictims;
      var h :| 1 <= h <= 12;
      HoursAgo(now, h, 1, 12);
      kills := kills + [Kill(victim, now - h * 3600, Label("DEMO-MATCH-", i), DemoWeapons[i])];
      assert plans[..i + 1] == plans[..i] + [plans[i]];
    }
    assert plans[..3] == plans;
  }

  /** Cutting both lists at the same place keeps them matched. */
  lemma TakeRealizes(kills: seq<Kill>, plans: seq<KillPlan>, now: int, limit: int)
    requires RealizesAll(kills, plans, now)
    ensures RealizesAll(Take(kills, limit), Take(plans, limit), now)
  {
    var k, p := Take(kills, limit), Take(plans, limit);
    assert |k| == |p|;
    assert forall i :: 0 <= i < |k| ==> k[i] == kills[i] && p[i] == plans[i];
  }

  /** fetch_recent_redsec_kills: the tiers in order, each tried only while
      the list is empty, then kills[:limit]. */
  method FetchRecentKills(tracker: TrackerFetch, stats: StatsFetch, limit: int, now: int) returns (kills: seq<Kill>)
    ensures RealizesAll(kills, KillPlans(tracker, stats, limit), now)
    ensures limit > 0 ==> 0 < |kills| <= limit
  {
    var found := ScrapeKills(tracker, limit, now);
    ghost var plans := ScrapeTier(tracker, limit);
    if |found| == 0 {
      found := StatsKills(stats, now);
      plans := StatsTier(stats);
    }
    if |found| == 0 {
      found := DemoKills(now);
      plans := DemoPlans();
    }
    kills := Take(found, limit);
    TakeRealizes(found, plans, now, limit);
    KillPlansBounds(tracker, stats, limit);
  }
}
