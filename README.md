# RedSec reactions — a verified model of the correlation core

The application takes a Battlefield player name and collects that player's
recent RedSec kills. For each victim who is a known Twitch streamer, it finds
the streamer's archived broadcast that covers the moment of the kill and
links to it, starting a few seconds before the kill. This project models the
logic behind that, with the network, the HTML scraping, the web page and the
clock replaced by plain inputs:

- `Duration` reads the archive duration string `"h:m:s"` in base 60.
- `Vod` is `find_stream_vod`: a linear search over the provider's archives
  in provider order. It models the first closed window `[start, start +
  duration]` that holds the kill, the playback offset `max(0, (kill - start)
  - 10)`, the thumbnail rewrite, the two fixed placeholder clips, and `None`
  wherever the code ends in its `except` clause, with two exceptions. The
  window comparison is performed as intended: as written it raises
  TypeError, which `CorrelateAsWritten` models (see "Findings"). The
  `datetime` overflows are listed under "Left out". `FindStreamVod` is a method
  with the loop and its early returns, proved equal to the function
  `Correlate`.
- `Resolver` is the fixed table from player names to Twitch logins, looked
  up with the name as given and then with the name lower-cased.
- `KillSource` is `fetch_recent_redsec_kills`, a three-tier source: scraped
  match rows, then kills made up from the stats service's lifetime total,
  then three demonstration kills. Each later tier runs only while the list
  is still empty, and the result is cut to `limit`. Random draws are free
  choices within the ranges the code gives. Each tier is specified by a list
  of kill plans, and the methods with the loops are proved to produce kills
  that realize those plans one for one.
- `Reactions` is the loop of the index page: an order-preserving filter-map
  over the kills. Its result is `None` exactly when there are no kills.
- `TokenCache` is `get_twitch_token`, a `CredentialStore` class whose `slot`
  field holds the cache file's text `token|expiry`. Its `GetToken` method is
  proved equal to the function `Acquire`.
- `Py` holds the Python built-ins these rely on: `str.strip`,
  `str.split`/`join`, `int()`, `str(int)`, `sub in s`, `str.lower` on ASCII,
  and slicing `s[:n]`.

Timestamps are whole seconds (`int`).

Where the code and its design description differ, the model follows the code:

- The resolver is exact and case-sensitive. Every key holds an upper-case
  letter, so the lower-cased second lookup never hits, and `"XQC"` resolves
  to nothing.
- The placeholder clips link to `?t=123s`.
- The placeholder thumbnail holds the text `(320, 180)`, because the
  f-string formats the tuple `{320,180}`.
- The credential cache has no single-flight guard.
- The kill source tries the scraped tracker page before the stats service
  (app.py:58-101).
- `get_twitch_token` lets an exception from the token POST or from
  `resp.json()` propagate to its caller (app.py:32-41).
- `find_stream_vod` returns `None` on any exception, an unavailable
  provider included (app.py:156-158).

The duration is read as the code reads it: colon-separated integer fields.

## Model

| member | source | states |
|---|---|---|
| Duration.ParseFieldsAt | app.py:138 | the fields are read exactly when int() accepts every one of them, and each value is int() of its field |
| Duration.ParseFormatDuration | app.py:136-138 | a duration written as decimal fields joined by ':' reads back as the base-60 value of the fields, least significant last |
| Duration.ParseHoursMinutesSeconds | app.py:138 | any three colon-free fields int() reads as h, m and s give h*3600 + m*60 + s, zero-padded ones included |
| Duration.ZeroPadded | app.py:138 | "1:02:03" reads as 3723 seconds |
| Duration.ParseMinutesSeconds | app.py:138 | any two colon-free fields int() reads as m and s give m*60 + s (so "5:23" is 323 and "5:03" is 303) |
| Duration.FieldWithoutDigit | app.py:138 | a field holding no digit, such as the empty field of "5:", makes the duration unreadable |
| Duration.UnreadableField | app.py:138 | one field int() rejects makes the whole duration unreadable (the ValueError) |
| Vod.FindStreamVod | app.py:120-158 | the search loop with its early returns computes exactly Correlate, the search with the window test performed as intended (as written the comparison raises TypeError, see Findings): None on an exception other than that one, the "DEMO" placeholder on a non-200 status, else the first stopping entry in provider order or the "No exact match" placeholder |
| Vod.FirstCoveringEntryWins | app.py:134-147 | when every earlier entry is readable and misses, and the first entry whose closed window holds the kill has url, thumbnail_url and title, that entry gives the link; its offset is max(0, kill - start - 10), lies in [0, duration], and is what the url carries |
| Vod.IncompleteCoveringEntryRaises | app.py:134-158 | when every earlier entry is readable and misses, a first covering entry that lacks url, thumbnail_url or title gives None (the KeyError the except clause catches) |
| Vod.LaterEntriesIgnored | app.py:134-148 | entries after the one where the loop stops are never consulted: appending or dropping them changes nothing |
| Vod.NoCoveringEntry | app.py:149-155 | when every entry is readable and none covers the kill, the result is the "No exact match" placeholder |
| Vod.UnreadableEntryRaises | app.py:135-158 | an unreadable entry (missing key, non-numeric duration field) reached before any match gives None |
| Vod.CorrelateOutcomes | app.py:120-158 | every result is None, one of the two placeholders, or the link of a covering entry whose predecessors all missed |
| Vod.PlaceholdersAreMarked | app.py:124-155 | both placeholders link to .../videos/123456789?t=123s and their titles end in " rages in RedSec - DEMO" and " RedSec stream - No exact match, demo clip" |
| Vod.ThumbnailRewrite | app.py:145 | the rewritten thumbnail is the text before the first "-preview-" (all of it when absent) followed by "-480x272.jpg" |
| Vod.AsWrittenNeverLinks | app.py:133-140 | as written, no call ever returns an archive link, only None or a placeholder |
| Vod.AsWrittenMissesCoveringEntry | app.py:133-140 | one archive covering the kill: the intended search returns its link at offset 90, the code as written None |
| Resolver.LookupOrder | app.py:200 | an exact hit wins; else the lower-cased name's value; else None; a result exists iff one of the two is a key |
| Resolver.EveryKeyHasUpper | app.py:162-199 | every key of the table holds an upper-case letter |
| Resolver.LowerHasNoUpper | app.py:200 | a lower-cased name holds no upper-case letter |
| Resolver.ResolveIsExact | app.py:161-200 | a name resolves exactly when it is a key as written, and then to that key's login |
| Resolver.XqcIsCaseSensitive | app.py:166-200 | "xQc" resolves to "xqc", "XQC" and "xqc" resolve to nothing |
| Resolver.XqcMisses | app.py:162-200 | every three-letter name but "xQc" resolves to nothing |
| Resolver.ResolvedLoginsNonEmpty | app.py:162-200 | every resolved login is non-empty, so the caller's truth test passes for every resolved name |
| Resolver.AculiteAlias | app.py:163-197 | the fallback entry and the plain name resolve to the same login |
| Resolver.NotAKey | app.py:162-199 | names starting with 'R', or with 'V' not followed by 'a', are not keys |
| KillSource.PlatformFallback | app.py:55-56 | the tracker platform is origin, psn or xbox, and origin for anything but pc, psn, xbl |
| KillSource.ScrapeCount | app.py:64-70 | with no raising row, the scrape yields min(kill_count, 3) kills per qualifying row (none for a negative count) and none for other rows |
| KillSource.ScrapeStopsAtRaise | app.py:58-80 | a qualifying row whose kills cell int() rejects ends the scrape, keeping the kills of earlier rows |
| KillSource.ScrapedKillShape | app.py:69-76 | every scraped kill is a "VictimN" with N in 1..3, has a fixed match id, lies 1 to 24 hours back and has a scrape weapon |
| KillSource.ScrapeAtMostThreePerRow | app.py:63-70 | the scrape yields at most three kills per row read |
| KillSource.ScrapeTierAtMostThreeTimesLimit | app.py:63-70 | only the first limit rows are read, so for a non-negative limit the scrape tier yields at most 3 * limit kills |
| KillSource.StatsTierCount | app.py:87-98 | the stats tier yields max(0, min(5, total_kills // 20)) kills, named RedSecPlayer1.. in order, 1 to 48 hours back, with demo match ids |
| KillSource.StatsTierEmpty | app.py:83-101 | an exception, a non-200 status, a non-JSON body, a missing count or fewer than 20 kills give no stats kills |
| KillSource.DemoTierShape | app.py:104-114 | the demo tier has exactly three kills, DEMO-MATCH-1..3, the demo weapons in list order, demo victims, 1 to 12 hours back |
| KillSource.TiersInOrder | app.py:83-117 | a later tier is consulted only when all earlier tiers gave nothing; the result is that tier cut to limit |
| KillSource.KillPlansBounds | app.py:103-117 | the result holds at most limit kills, and at least one for a positive limit |
| KillSource.RowKills | app.py:69-76 | the kill loop of one row appends min(kill_count, 3) kills realizing the row's plans, all sharing the row's time |
| KillSource.ScrapeKills | app.py:58-80 | the row loop produces kills realizing the scrape tier's plans |
| KillSource.StatsKills | app.py:85-101 | the stats loop produces kills realizing the stats tier's plans |
| KillSource.DemoKills | app.py:104-114 | the demo loop produces kills realizing the demo plans |
| KillSource.TakeRealizes | app.py:117 | cutting kills and plans at the same limit keeps them matched |
| KillSource.FetchRecentKills | app.py:52-117 | the whole function yields kills realizing the tiered plans, and between 1 and limit of them for a positive limit |
| KillSource.ScrapeAsWrittenIsEmpty | app.py:66-68 | as written, the scrape tier never yields a kill |
| KillSource.ScrapeFindingExample | app.py:66-76 | one RedSec row of two kills: the intended scrape yields two kills, the code as written none |
| Reactions.CollectReactions | app.py:213-229 | the loop yields None for no kills, else the reactions to the kills in order |
| Reactions.Search | app.py:208-229 | the page's kills realize the tiered plans with limit 20, there are 1 to 20 of them, and the page always gets a list of their reactions |
| Reactions.ReactionsSelectKills | app.py:216-229 | the reactions are an order-preserving selection: the k-th is the reaction of the kill at an increasing position, every kill left out gives none, and there are no more reactions than kills |
| Reactions.ReactionsAppend | app.py:216-229 | the reactions to a + b are those to a followed by those to b |
| Reactions.IndexNoneIffNoKills | app.py:213-215 | the page has no list exactly when there are no kills |
| Reactions.ReactionCarriesKill | app.py:218-229 | a reaction carries its kill's match id, time, victim and weapon, and the link find_stream_vod gives for the victim's login |
| Reactions.UnknownVictimDropped | app.py:219-220 | a victim that is not a key of the table never gives a reaction |
| Reactions.PlaceholderVictimsUnknown | app.py:162-199 | "VictimN" and "RedSecPlayerN" are not keys of the table |
| Reactions.SourcedKillsNeverReact | app.py:216-229 | when the scrape or stats tier supplied the kills, the page lists no reaction whatever the archives hold |
| TokenCache.CredentialStore.GetToken | app.py:18-47 | one call computes exactly Acquire: the result and the new cache content |
| TokenCache.CacheRoundTrip | app.py:26-46 | the written token, bar, expiry text is read back as that token exactly while now is before the expiry, for a token without a bar character or leading whitespace |
| TokenCache.PipeTokenNeverHits | app.py:26-46 | every token holding a bar character, leading whitespace or not, splits into more than two fields and is never read back |
| TokenCache.NoCredentialsGiveDummy | app.py:19-20 | without credentials the result is "dummy_token" and the cache is untouched |
| TokenCache.CacheHitSkipsExchange | app.py:23-28 | a valid cached token is returned as it is, whatever the exchange would answer, and the cache is untouched |
| TokenCache.MissOutcomes | app.py:32-41 | on a miss, a non-200 status gives "dummy_token" with the cache untouched; an exception from the POST or from resp.json() propagates |
| TokenCache.FreshTokenCached | app.py:41-47 | on a miss, a 200 reply returns access_token (default "dummy_token") and caches it with expiry now + expires_in (default 3600) |
| TokenCache.SecondCallHits | app.py:23-47 | after a refresh that fetched a token without a bar character or leading whitespace, a call before the expiry returns the same token without an exchange and leaves the cache as it is; a call at or after the expiry misses |
| Py.ParseIntOfIntToString | app.py:138 | int() reads back what str() writes, for every integer |
| Py.SplitJoin | app.py:26 | splitting a join gives back the pieces when none holds the separator |
| Py.JoinSplit | app.py:26 | joining the pieces of a split gives back the string |
| Py.FirstPiece | app.py:145 | s.split(sep)[0] is the prefix of s before the first occurrence of sep, all of s when there is none |
| Py.Take | app.py:117 | s[:n] keeps the first min(n, len) elements, and for negative n all but the last -n |
| Py.LowerIdempotent | app.py:200 | lower() applied twice equals lower() once, and leaves a name without an ASCII capital unchanged |

## Left out

- HTTP requests, status codes and JSON bodies are inputs (`ArchiveFetch`,
  `TrackerFetch`, `StatsFetch`, `Exchange`). The archive request is a
  function of the login, fixed for one page load.
- The HTML parsing with BeautifulSoup is not modelled. A tracker page is its
  list of match rows: the mode text, the kills text and the match id.
- `random.randint` and `random.choice` are nondeterministic choices within
  the ranges the code gives.
- `datetime`, ISO strings, the `'Z'` replacement and the page's `strftime`
  formatting are not modelled. Times are whole seconds. A start time that
  `fromisoformat` rejects is a missing `createdAt`.
- TokenCache.Acquire writes the expiry as decimal seconds where the code
  writes `expiry.isoformat()` (app.py:44-46), and TokenCache.CachedToken
  reads it back with the `int()` model where the code uses
  `datetime.fromisoformat`. A cache file in the code's ISO form is therefore
  not read by the model, and the model accepts a few expiry texts the code
  rejects (a sign, underscores).
- The clock is read once per call: each operation takes one `now`. The code
  calls `datetime.now()` afresh at app.py:27, 44, 69, 95, 111 and 217, so
  its "hours back" are whole hours only up to the few moments between those
  readings. The whole-hour offsets of `HoursBefore` (1 to 24, 1 to 48,
  1 to 12 hours) are exact only under the single `now`.
- `time.sleep(1)` and every `print` are not modelled. They only delay and
  log.
- Flask routing, the form fields and the HTML template are not modelled.
  This includes `scanned_count` being unbound on the GET path (app.py:232),
  a presentation bug.
- File I/O on `twitch_token.txt` is the `slot` field. I/O errors are not
  modelled: neither one while reading inside the `try` (which the bare
  `except` swallows) nor one while writing the cache at app.py:45-46, which
  lies outside any `try` and would propagate to the caller.
- The environment variables are not modelled. The credentials are a
  boolean, and the module-level `TWITCH_HEADERS` built at import is left out.
- Concurrency is not modelled. The code has no single-flight refresh and
  takes no locks.
- `str.lower()` and `str.isdigit` are modelled on ASCII only. Unicode case
  mapping and non-ASCII digits are left out.
- KillSource.RowKills: all kills of one row share one time, which
  `RowKills` ensures. The per-plan `Realizes` relation records only the hour
  range.
- The range of `datetime` (years 1 to 9999) is not modelled: times and
  durations are unbounded integers. Where the code overflows it, the model
  goes on computing. In `find_stream_vod`, `vod_start + timedelta(...)`
  (app.py:139) raises OverflowError for a window ending past year 9999, and
  the `except` at app.py:156-158 returns None, while Vod.Correlate returns
  the link for a covering entry. In `get_twitch_token`,
  `timedelta(seconds=expires_in)` (app.py:44) raises for a huge
  `expires_in` outside any `try`, so the call fails, while
  TokenCache.Acquire returns the token and caches it.
- Numbers the JSON gives (`kills`, `expires_in`) are integers. Floats and
  non-numeric values, which Python would carry into `//` or `timedelta`,
  are not modelled.

## Findings

| source | as written | input that shows it | evidently intended | confidence | as-written member | corrected member |
|---|---|---|---|---|---|---|
| app.py:68 | `re.compile` is used, but `re` is never imported. The first RedSec or BR row raises NameError (or ValueError from `int()` before it), the `except` swallows it, and the scrape tier yields nothing. | a 200 tracker page with one row, mode "RedSec Duos", kills "2", match link to 12345 | two kills, Victim1 and Victim2, from that row | high, not executed | KillSource.ScrapeAsWrittenIsEmpty | KillSource.ScrapeCount |
| app.py:133-140 | The kill time is `datetime.now().isoformat()`, which has no UTC offset. The provider's `created_at` ends in "Z" and parses to a time with offset +00:00. `vod_start <= kill_dt` then raises TypeError, so a 200 reply with a readable archive always gives None. | one archive starting at second 1000, duration "4:59", kill at second 1100 | the archive's link at t=90s | high, not executed | Vod.AsWrittenMissesCoveringEntry | Vod.FirstCoveringEntryWins |

The rest of the model uses the corrected behaviour: `KillSource.ScrapeTier`
and `Vod.Correlate`.
