/** The correlation engine, find_stream_vod (app.py:120-158): the provider's
    most recent archives are walked in the order the provider gives them,
    and the first whose closed window [start, start + duration] holds the
    kill is turned into a playback link that starts ten seconds before the
    kill. A failed request yields a placeholder clip, and so does a kill no
    window holds; an exception yields None. Two exceptions of the Python
    code are not modelled: the window test is performed as intended (as
    written, comparing the provider's aware start with the naive kill time
    raises TypeError; CorrelateAsWritten is that behaviour), and a window
    past the range of datetime does not overflow. */
module Vod {
  import opened Py
  import opened Duration

  /** One entry of the provider's `data` list, as the fields the loop reads
      from it. None marks a missing key (KeyError) or, for the start time, a
      timestamp fromisoformat() rejects. Times are in whole seconds. */
  datatype ArchiveEntry = ArchiveEntry(
    createdAt: Option<int>,
    duration: Option<string>,
    url: Option<string>,
    thumbnailUrl: Option<string>,
    title: Option<string>)

  /** The body of a 200 reply: not JSON at all (resp.json() raises), or the
      `data` list, empty when the key is absent. */
  datatype ArchiveBody = NotJson | Json(data: seq<ArchiveEntry>)

  /** What the archive request gave: an exception from the HTTP client, or a
      reply with its status code. */
  datatype ArchiveFetch = RequestRaised | Reply(status: int, body: ArchiveBody)

  /** The dictionary find_stream_vod returns. */
  datatype VodLink = VodLink(url: string, thumbnail: string, title: string, duration: string)

  /** The playback link starts this many seconds before the kill. */
  const LeadSeconds := 10

  const PlaceholderVideoUrl := "https://www.twitch.tv/videos/123456789?t=123s"

  /** The f-string {320,180} formats a tuple, hence "(320, 180)". */
  function PlaceholderThumbnail(login: string): string {
    "https://static-cdn.jtvnw.net/previews-ttv/live_user_" + login + "-(320, 180).jpg"
  }

  /** The clip returned when the archive request answers with a status other than 200. */
  function ApiDownClip(login: string): VodLink {
    VodLink(PlaceholderVideoUrl, PlaceholderThumbnail(login), login + " rages in RedSec - DEMO", "5:23")
  }

  /** The clip returned when no archive window holds the kill. */
  function NoMatchClip(login: string): VodLink {
    VodLink(PlaceholderVideoUrl, PlaceholderThumbnail(login),
            login + " RedSec stream - No exact match, demo clip", "3:45")
  }

  /** thumbnail_url.split('-preview-')[0] + '-480x272.jpg'. */
  function RewriteThumbnail(thumbnailUrl: string): string {
    FirstPiece(thumbnailUrl, "-preview-") + "-480x272.jpg"
  }

  // ---------------------------------------------------------------------
  // One entry, as the loop body sees it
  // ---------------------------------------------------------------------

  /** The entry's start and length can be read: the loop body does not raise
      before the window test. */
  predicate Readable(e: ArchiveEntry) {
    e.createdAt.Some? && e.duration.Some? && ParseDuration(e.duration.value).Some?
  }

  /** The entry's closed window [start, start + duration] holds the kill. */
  predicate Covers(e: ArchiveEntry, kill: int)
    requires Readable(e)
  {
    e.createdAt.value <= kill <= e.createdAt.value + ParseDuration(e.duration.value).value
  }

  /** Everything the returned dictionary reads is present. */
  predicate Complete(e: ArchiveEntry) {
    Readable(e) && e.url.Some? && e.thumbnailUrl.Some? && e.title.Some?
  }

  /** max(0, (kill - start) - 10): where playback starts, in seconds into the archive. */
  function Offset(start: int, kill: int): nat {
    Max(0, (kill - start) - LeadSeconds)
  }

  /** The link made from an entry whose window holds the kill. */
  function MatchLink(e: ArchiveEntry, kill: int): VodLink
    requires Complete(e)
  {
    VodLink(e.url.value + "?t=" + NatToString(Offset(e.createdAt.value, kill)) + "s",
            RewriteThumbnail(e.thumbnailUrl.value), e.title.value, e.duration.value)
  }

  /** What one pass of the loop does: raise, go on to the next entry, or
      return a link. */
  datatype Step = Raises | Skip | Hit(link: VodLink)

  function Examine(e: ArchiveEntry, kill: int): Step {
    if !Readable(e) then Raises
    else if !Covers(e, kill) then Skip
    else if !Complete(e) then Raises
    else Hit(MatchLink(e, kill))
  }

  /** What the loop body does with each entry, in provider order. */
  function Steps(entries: seq<ArchiveEntry>, kill: int): (steps: seq<Step>)
    ensures |steps| == |entries|
  {
    if entries == [] then [] else [Examine(entries[0], kill)] + Steps(entries[1..], kill)
  }

  /** Step j is what the loop body does with entry j. */
  lemma {:induction false} StepAt(entries: seq<ArchiveEntry>, kill: int, j: nat)
    requires j < |entries|
    ensures Steps(entries, kill)[j] == Examine(entries[j], kill)
  {
    if j > 0 {
      StepAt(entries[1..], kill, j - 1);
    }
  }

  /** The steps before entry i, one entry at a time. */
  lemma StepsBefore(entries: seq<ArchiveEntry>, kill: int, i: nat)
    requires i <= |entries|
    ensures forall j :: 0 <= j < i ==> Steps(entries, kill)[j] == Examine(entries[j], kill)
  {
    forall j | 0 <= j < i
      ensures Steps(entries, kill)[j] == Examine(entries[j], kill)
    {
      StepAt(entries, kill, j);
    }
  }

  /** The index of the first step that does not go on to the next entry,
      or |steps| when every step does. */
  function FirstStop(steps: seq<Step>): (k: nat)
    ensures k <= |steps|
    ensures forall j :: 0 <= j < k ==> steps[j].Skip?
    ensures k < |steps| ==> !steps[k].Skip?
  {
    if steps == [] || !steps[0].Skip? then 0
    else 1 + FirstStop(steps[1..])
  }

  /** find_stream_vod as a function of the provider's answer, with the
      window test performed as intended: None wherever the Python code ends
      in its `except` clause, except for the TypeError of its window
      comparison (see CorrelateAsWritten) and a datetime overflow. */
  function Correlate(login: string, kill: int, fetch: ArchiveFetch): Option<VodLink> {
    match fetch
    case RequestRaised => None
    case Reply(status, body) =>
      if status != 200 then Some(ApiDownClip(login))
      else
        match body
        case NotJson => None
        case Json(entries) =>
          var steps := Steps(entries, kill);
          var k := FirstStop(steps);
          if k == |steps| then Some(NoMatchClip(login))
          else
            match steps[k]
            case Hit(link) => Some(link)
            case _ => None
  }

  /** One pass of the loop body of find_stream_vod: read the start and the
      length, test the window, and build the link. */
  method ExamineEntry(e: ArchiveEntry, kill: int) returns (step: Step)
    ensures step == Examine(e, kill)
  {
    if e.createdAt.None? || e.duration.None? {
      return Raises;
    }
    var start, text := e.createdAt.value, e.duration.value;
    var seconds := ParseDuration(text);
    if seconds.None? {
      return Raises;
    }
    var end := start + seconds.value;
    if !(start <= kill <= end) {
      return Skip;
    }
    if e.url.None? || e.thumbnailUrl.None? || e.title.None? {
      return Raises;
    }
    var offset := (kill - start) - LeadSeconds;
    assert Offset(start, kill) == Max(0, offset);
    var url := e.url.value + "?t=" + NatToString(Max(0, offset)) + "s";
    return Hit(VodLink(url, RewriteThumbnail(e.thumbnailUrl.value), e.title.value, text));
  }

  /** The search loop of find_stream_vod, with its early returns. */
  method FindStreamVod(login: string, kill: int, fetch: ArchiveFetch) returns (r: Option<VodLink>)
    ensures r == Correlate(login, kill, fetch)
  {
    if fetch.RequestRaised? {
      return None;
    }
    if fetch.status != 200 {
      return Some(ApiDownClip(login));
    }
    if fetch.body.NotJson? {
      return None;
    }
    var entries := fetch.body.data;
    ghost var steps := Steps(entries, kill);
    var i := 0;
    while i < |entries|
      invariant 0 <= i <= |entries|
      invariant forall j :: 0 <= j < i ==> steps[j].Skip?
    {
      var step := ExamineEntry(entries[i], kill);
      StepAt(entries, kill, i);
      match step
      case Raises =>
        StopsAt(steps, i);
        return None;
      case Hit(link) =>
        StopsAt(steps, i);
        return Some(link);
      case Skip =>
        i := i + 1;
    }
    StopsAt(steps, |entries|);
    return Some(NoMatchClip(login));
  }

  // ---------------------------------------------------------------------
  // The window test as written
  // ---------------------------------------------------------------------

  /** find_stream_vod as the code is written. The kill time comes from
      datetime.now() and carries no UTC offset, while every created_at the
      provider sends ends in "Z" and parses, after the replace, to a time
      with offset +00:00. Comparing the two raises TypeError, so the first
      entry, readable or not, ends the call in its `except` clause; only an
      empty list reaches the "No exact match" placeholder. */
  function CorrelateAsWritten(login: string, kill: int, fetch: ArchiveFetch): Option<VodLink> {
    match fetch
    case RequestRaised => None
    case Reply(status, body) =>
      if status != 200 then Some(ApiDownClip(login))
      else
        match body
        case NotJson => None
        case Json(entries) => if entries == [] then Some(NoMatchClip(login)) else None
  }

  /** As written, no call ever returns an archive link: only None or one of
      the two placeholders. */
  lemma AsWrittenNeverLinks(login: string, kill: int, fetch: ArchiveFetch)
    ensures CorrelateAsWritten(login, kill, fetch) in {None, Some(ApiDownClip(login)), Some(NoMatchClip(login))}
  {
  }

  lemma FourFiftyNine()
    ensures ParseDuration("4:59") == Some(299)
  {
    ParseOneDigit('4');
    ParseTwoDigits('5', '9');
    ParseMinutesSeconds("4", "59", 4, 59);
    assert "4" + ":" + "59" == "4:59";
  }

  /** One archive, started at second 1000 and 4:59 long, and a kill at
      second 1100: the intended search returns that archive's link, starting
      90 seconds in; the code as written returns None. */
  lemma AsWrittenMissesCoveringEntry()
    ensures var e := ArchiveEntry(Some(1000), Some("4:59"), Some("u"), Some("t"), Some("clip"));
            && Examine(e, 1100).Hit?
            && Correlate("xqc", 1100, Reply(200, Json([e]))) == Some(Examine(e, 1100).link)
            && Examine(e, 1100).link == MatchLink(e, 1100)
            && Offset(1000, 1100) == 90
            && CorrelateAsWritten("xqc", 1100, Reply(200, Json([e]))) == None
  {
    var e := ArchiveEntry(Some(1000), Some("4:59"), Some("u"), Some("t"), Some("clip"));
    FourFiftyNine();
    assert Complete(e) && Covers(e, 1100);
    FirstCoveringEntryWins("xqc", 1100, [e], 0);
  }

  // ---------------------------------------------------------------------
  // What the search promises
  // ---------------------------------------------------------------------

  /** The loop stops at the first step that does not go on. */
  lemma StopsAt(steps: seq<Step>, i: nat)
    requires i <= |steps|
    requires forall j :: 0 <= j < i ==> steps[j].Skip?
    requires i < |steps| ==> !steps[i].Skip?
    ensures FirstStop(steps) == i
  {
  }

  /** The first entry in provider order whose window holds the kill wins,
      provided every entry before it is readable; its link starts at
      max(0, (kill - start) - 10), which lies within [0, duration]. */
  lemma FirstCoveringEntryWins(login: string, kill: int, entries: seq<ArchiveEntry>, i: nat)
    requires i < |entries|
    requires forall j :: 0 <= j < i ==> Readable(entries[j]) && !Covers(entries[j], kill)
    requires Complete(entries[i]) && Covers(entries[i], kill)
    ensures Correlate(login, kill, Reply(200, Json(entries))) == Some(MatchLink(entries[i], kill))
    ensures var e := entries[i];
            var o := Offset(e.createdAt.value, kill);
            && 0 <= o <= ParseDuration(e.duration.value).value
            && o == Max(0, kill - e.createdAt.value - 10)
            && MatchLink(e, kill).url == e.url.value + "?t=" + NatToString(o) + "s"
  {
    StepsBefore(entries, kill, i + 1);
    StopsAt(Steps(entries, kill), i);
  }

  /** The first covering entry, reached after readable misses, gives None
      when it lacks url, thumbnail_url or title: building the returned
      dictionary raises KeyError, which the except clause turns into None. */
  lemma IncompleteCoveringEntryRaises(login: string, kill: int, entries: seq<ArchiveEntry>, i: nat)
    requires i < |entries|
    requires forall j :: 0 <= j < i ==> Readable(entries[j]) && !Covers(entries[j], kill)
    requires Readable(entries[i]) && Covers(entries[i], kill) && !Complete(entries[i])
    ensures Correlate(login, kill, Reply(200, Json(entries))) == None
  {
    StepsBefore(entries, kill, i + 1);
    StopsAt(Steps(entries, kill), i);
  }

  /** Entries after the one the loop stops at are never consulted: adding
      more of them changes nothing. */
  lemma LaterEntriesIgnored(login: string, kill: int, entries: seq<ArchiveEntry>, more: seq<ArchiveEntry>, i: nat)
    requires i < |entries|
    requires forall j :: 0 <= j < i ==> Examine(entries[j], kill).Skip?
    requires !Examine(entries[i], kill).Skip?
    ensures Correlate(login, kill, Reply(200, Json(entries + more)))
         == Correlate(login, kill, Reply(200, Json(entries)))
         == Correlate(login, kill, Reply(200, Json(entries[..i + 1])))
  {
    var all := entries + more;
    var head := entries[..i + 1];
    assert forall j :: 0 <= j <= i ==> all[j] == entries[j] && head[j] == entries[j];
    StepsBefore(all, kill, i + 1);
    StepsBefore(entries, kill, i + 1);
    StepsBefore(head, kill, i + 1);
    StopsAt(Steps(all, kill), i);
    StopsAt(Steps(entries, kill), i);
    StopsAt(Steps(head, kill), i);
  }

  /** When every entry is readable and none of their windows holds the kill,
      the result is the "No exact match" placeholder. */
  lemma NoCoveringEntry(login: string, kill: int, entries: seq<ArchiveEntry>)
    requires forall j :: 0 <= j < |entries| ==> Readable(entries[j]) && !Covers(entries[j], kill)
    ensures Correlate(login, kill, Reply(200, Json(entries))) == Some(NoMatchClip(login))
  {
    StepsBefore(entries, kill, |entries|);
    StopsAt(Steps(entries, kill), |entries|);
  }

  /** An entry the loop cannot read, reached before any match, makes the
      call end in its `except` clause. */
  lemma UnreadableEntryRaises(login: string, kill: int, entries: seq<ArchiveEntry>, i: nat)
    requires i < |entries|
    requires forall j :: 0 <= j < i ==> Readable(entries[j]) && !Covers(entries[j], kill)
    requires !Readable(entries[i])
    ensures Correlate(login, kill, Reply(200, Json(entries))) == None
  {
    StepsBefore(entries, kill, i + 1);
    StopsAt(Steps(entries, kill), i);
  }

  /** Every result is one of four kinds: None, one of the two placeholders,
      or the link of an entry whose window holds the kill, all entries before
      it having been passed over. */
  lemma CorrelateOutcomes(login: string, kill: int, fetch: ArchiveFetch)
    ensures var r := Correlate(login, kill, fetch);
            || r == None
            || (fetch.Reply? && fetch.status != 200 && r == Some(ApiDownClip(login)))
            || (fetch.Reply? && fetch.status == 200 && fetch.body.Json? && r == Some(NoMatchClip(login)))
            || (fetch.Reply? && fetch.status == 200 && fetch.body.Json? &&
                exists i :: 0 <= i < |fetch.body.data|
                  && (forall j :: 0 <= j < i ==> Readable(fetch.body.data[j]) && !Covers(fetch.body.data[j], kill))
                  && Complete(fetch.body.data[i]) && Covers(fetch.body.data[i], kill)
                  && r == Some(MatchLink(fetch.body.data[i], kill)))
  {
    if fetch.Reply? && fetch.status == 200 && fetch.body.Json? {
      var entries := fetch.body.data;
      var steps := Steps(entries, kill);
      var k := FirstStop(steps);
      if k < |entries| && steps[k].Hit? {
        StepsBefore(entries, kill, k + 1);
        assert forall j :: 0 <= j < k ==> Readable(entries[j]) && !Covers(entries[j], kill);
        assert Complete(entries[k]) && Covers(entries[k], kill);
        assert steps[k] == Hit(MatchLink(entries[k], kill));
      }
    }
  }

  /** The placeholders carry the fixed demonstration link and a title that
      marks them as such. */
  lemma PlaceholdersAreMarked(login: string)
    ensures ApiDownClip(login).url == NoMatchClip(login).url == "https://www.twitch.tv/videos/123456789?t=123s"
    ensures ApiDownClip(login).title[|login|..] == " rages in RedSec - DEMO"
    ensures NoMatchClip(login).title[|login|..] == " RedSec stream - No exact match, demo clip"
  {
  }

  /** The rewritten thumbnail is the text before the first "-preview-"
      (all of it when there is none) followed by "-480x272.jpg". */
  lemma ThumbnailRewrite(thumbnailUrl: string)
    ensures var t := RewriteThumbnail(thumbnailUrl);
            var p := |t| - |"-480x272.jpg"|;
            && 0 <= p && t[p..] == "-480x272.jpg"
            && thumbnailUrl[..p] == t[..p]
            && (forall i :: 0 <= i < p ==> !StartsWith(thumbnailUrl[i..], "-preview-"))
            && (p == |thumbnailUrl| || StartsWith(thumbnailUrl[p..], "-preview-"))
  {
  }
}
