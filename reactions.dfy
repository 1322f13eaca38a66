/** The search loop of the index page (app.py:203-232): every kill whose
    victim resolves to a streamer login is looked up in that streamer's
    archives, and every lookup that gives a link becomes a reaction, in kill
    order. An empty kill list yields no list at all (None). */
module Reactions {
  import opened Py
  import opened Vod
  import opened Resolver
  import opened KillSource

  /** The dictionary appended for each found clip. The kill time stays in
      seconds; the page's strftime formatting is not modelled. */
  datatype Reaction = Reaction(matchId: string, killTime: int, victim: string, weapon: string, vod: VodLink)

  /** `if streamer_login:` — the resolved login, when there is one and it is
      not empty. */
  function StreamerOf(victim: string): Option<string> {
    match TwitchLogin(victim)
    case None => None
    case Some(login) => if login != [] then Some(login) else None
  }

  /** What one pass of the loop appends, given what the archive request
      gives for each login. */
  function ReactionTo(kill: Kill, archive: string -> ArchiveFetch): Option<Reaction> {
    match StreamerOf(kill.victim)
    case None => None
    case Some(login) =>
      match Correlate(login, kill.killTime, archive(login))
      case None => None
      case Some(vod) => Some(Reaction(kill.matchId, kill.killTime, kill.victim, kill.weapon, vod))
  }

  /** The values f gives, in order, for the elements it gives one for. */
  function FilterMap<T, U>(s: seq<T>, f: T -> Option<U>): seq<U> {
    if s == [] then []
    else
      var front := FilterMap(s[..|s| - 1], f);
      match f(s[|s| - 1])
      case None => front
      case Some(u) => front + [u]
  }

  /** The reactions list after the loop has seen `kills`. */
  function ReactionsOf(kills: seq<Kill>, archive: string -> ArchiveFetch): seq<Reaction> {
    FilterMap(kills, kill => ReactionTo(kill, archive))
  }

  /** `reactions = None` for an empty kill list, the list otherwise. */
  function IndexReactions(kills: seq<Kill>, archive: string -> ArchiveFetch): Option<seq<Reaction>> {
    if kills == [] then None else Some(ReactionsOf(kills, archive))
  }

  /** The loop of the index page. */
  method CollectReactions(kills: seq<Kill>, archive: string -> ArchiveFetch) returns (reactions: Option<seq<Reaction>>)
    ensures reactions == IndexReactions(kills, archive)
  {
    if |kills| == 0 {
      return None;
    }
    var found: seq<Reaction> := [];
    for i := 0 to |kills|
      invariant found == ReactionsOf(kills[..i], archive)
    {
      var kill := kills[i];
      assert kills[..i + 1][..i] == kills[..i];
      var login := TwitchLogin(kill.victim);
      if login.Some? && login.value != [] {
        var vod := FindStreamVod(login.value, kill.killTime, archive(login.value));
        if vod.Some? {
          found := found + [Reaction(kill.matchId, kill.killTime, kill.victim, kill.weapon, vod.value)];
        }
      }
    }
    assert kills[..|kills|] == kills;
    return Some(found);
  }

  /** The page as a whole: the kill source with its default limit of 20,
      then the loop. The kill source never comes back empty, so the page
      always gets a list, possibly empty. */
  method Search(tracker: TrackerFetch, stats: StatsFetch, now: int, archive: string -> ArchiveFetch)
    returns (kills: seq<Kill>, reactions: Option<seq<Reaction>>)
    ensures RealizesAll(kills, KillPlans(tracker, stats, 20), now)
    ensures 0 < |kills| <= 20
    ensures reactions == Some(ReactionsOf(kills, archive))
  {
    kills := FetchRecentKills(tracker, stats, 20, now);
    reactions := CollectReactions(kills, archive);
  }

  // ---------------------------------------------------------------------
  // What the loop promises
  // ---------------------------------------------------------------------

  /** The loop works element by element: the values for a + b are those
      for a followed by those for b. */
  lemma {:induction false} FilterMapAppend<T, U>(a: seq<T>, b: seq<T>, f: T -> Option<U>)
    ensures FilterMap(a + b, f) == FilterMap(a, f) + FilterMap(b, f)
    decreases |b|
  {
    if b == [] {
      assert a + b == a;
    } else {
      var c := a + b;
      assert c[..|c| - 1] == a + b[..|b| - 1];
      assert c[|c| - 1] == b[|b| - 1];
      FilterMapAppend(a, b[..|b| - 1], f);
    }
  }

  /** The positions of the elements f gives a value for, in increasing order. */
  function KeptPositions<T, U>(s: seq<T>, f: T -> Option<U>): seq<nat> {
    if s == [] then []
    else
      var front := KeptPositions(s[..|s| - 1], f);
      if f(s[|s| - 1]).Some? then front + [|s| - 1] else front
  }

  /** FilterMap is an order-preserving selection: its k-th value is what f
      gives for position KeptPositions[k], the positions increase, and f
      gives nothing for every position left out. */
  lemma {:induction false} FilterMapSelects<T, U>(s: seq<T>, f: T -> Option<U>)
    ensures var rs := FilterMap(s, f);
            var ps := KeptPositions(s, f);
            && |rs| == |ps|
            && (forall k :: 0 <= k < |ps| ==> ps[k] < |s| && f(s[ps[k]]) == Some(rs[k]))
            && (forall k, l :: 0 <= k < l < |ps| ==> ps[k] < ps[l])
            && (forall j :: 0 <= j < |s| && j !in ps ==> f(s[j]).None?)
  {
    if s != [] {
      var front := s[..|s| - 1];
      FilterMapSelects(front, f);
      assert forall j :: 0 <= j < |front| ==> front[j] == s[j];
    }
  }

  /** No more values than elements. */
  lemma {:induction false} FilterMapAtMost<T, U>(s: seq<T>, f: T -> Option<U>)
    ensures |FilterMap(s, f)| <= |s|
  {
    if s != [] {
      FilterMapAtMost(s[..|s| - 1], f);
    }
  }

  /** The reactions are the reactions to the kills, in kill order: the k-th
      is the one the kill at KeptPositions[k] gives, and every other kill
      gives none; there are no more reactions than kills. */
  lemma ReactionsSelectKills(kills: seq<Kill>, archive: string -> ArchiveFetch)
    ensures var rs := ReactionsOf(kills, archive);
            var ps := KeptPositions(kills, kill => ReactionTo(kill, archive));
            && |rs| == |ps| <= |kills|
            && (forall k :: 0 <= k < |ps| ==> ps[k] < |kills| && ReactionTo(kills[ps[k]], archive) == Some(rs[k]))
            && (forall k, l :: 0 <= k < l < |ps| ==> ps[k] < ps[l])
            && (forall j :: 0 <= j < |kills| && j !in ps ==> ReactionTo(kills[j], archive).None?)
  {
    FilterMapSelects(kills, kill => ReactionTo(kill, archive));
    FilterMapAtMost(kills, kill => ReactionTo(kill, archive));
  }

  /** Reactions to a longer kill list extend those to its prefix. */
  lemma ReactionsAppend(a: seq<Kill>, b: seq<Kill>, archive: string -> ArchiveFetch)
    ensures ReactionsOf(a + b, archive) == ReactionsOf(a, archive) + ReactionsOf(b, archive)
  {
    FilterMapAppend(a, b, kill => ReactionTo(kill, archive));
  }

  /** The page has no list exactly when the kill source gave no kill. */
  lemma IndexNoneIffNoKills(kills: seq<Kill>, archive: string -> ArchiveFetch)
    ensures IndexReactions(kills, archive).None? <==> kills == []
  {
  }

  /** A reaction carries its kill's fields and the link find_stream_vod gave
      for the victim's login and the kill time. */
  lemma ReactionCarriesKill(kill: Kill, archive: string -> ArchiveFetch)
    requires ReactionTo(kill, archive).Some?
    ensures var r := ReactionTo(kill, archive).value;
            && kill.victim in KnownStreamers
            && var login := KnownStreamers[kill.victim];
            && login != []
            && r == Reaction(kill.matchId, kill.killTime, kill.victim, kill.weapon, r.vod)
            && Correlate(login, kill.killTime, archive(login)) == Some(r.vod)
  {
    ResolveIsExact(kill.victim);
  }

  /** A victim that is not a key of the table, as written, never gives a
      reaction, whatever the archives hold: "Victim1", "RedSecPlayer1" and
      "XQC" among them. */
  lemma UnknownVictimDropped(kill: Kill, archive: string -> ArchiveFetch)
    requires kill.victim !in KnownStreamers
    ensures ReactionTo(kill, archive) == None
  {
    ResolveIsExact(kill.victim);
  }

  /** Placeholder victims of the scrape and stats tiers are not streamers. */
  lemma PlaceholderVictimsUnknown(i: nat)
    ensures Label("Victim", i) !in KnownStreamers
    ensures Label("RedSecPlayer", i) !in KnownStreamers
  {
    var a, b := Label("Victim", i), Label("RedSecPlayer", i);
    assert a[0] == 'V' && a[1] == 'i' && b[0] == 'R' && |b| >= 2;
    NotAKey(a);
    NotAKey(b);
  }

  /** f giving nothing for every element gives the empty list. */
  lemma {:induction false} FilterMapNothing<T, U>(s: seq<T>, f: T -> Option<U>)
    requires forall i :: 0 <= i < |s| ==> f(s[i]).None?
    ensures FilterMap(s, f) == []
  {
    if s != [] {
      FilterMapNothing(s[..|s| - 1], f);
    }
  }

  /** Only demonstration kills can give a reaction: when the scrape or the
      stats tier supplied the kills, their placeholder victims resolve to no
      streamer and the page lists no reaction, whatever the archives hold. */
  lemma SourcedKillsNeverReact(tracker: TrackerFetch, stats: StatsFetch, limit: int, now: int,
                               kills: seq<Kill>, archive: string -> ArchiveFetch)
    requires RealizesAll(kills, KillPlans(tracker, stats, limit), now)
    requires ScrapeTier(tracker, limit) != [] || StatsTier(stats) != []
    ensures ReactionsOf(kills, archive) == []
  {
    var scraped := ScrapeTier(tracker, limit);
    var sourced := if scraped != [] then scraped else StatsTier(stats);
    var plans := KillPlans(tracker, stats, limit);
    assert plans == Take(sourced, limit);
    if tracker.TrackerReply? && tracker.status == 200 {
      ScrapedKillShape(Take(tracker.rows, limit));
    }
    if stats.StatsReply? && stats.status == 200 && stats.body.StatsJson? {
      StatsTierCount(stats.body.kills);
    }
    forall i | 0 <= i < |kills|
      ensures ReactionTo(kills[i], archive).None?
    {
      assert plans[i] == sourced[i] && sourced[i] in sourced;
      var n: nat :| kills[i].victim == Label("Victim", n) || kills[i].victim == Label("RedSecPlayer", n);
      PlaceholderVictimsUnknown(n);
      UnknownVictimDropped(kills[i], archive);
    }
    FilterMapNothing(kills, kill => ReactionTo(kill, archive));
  }
}
