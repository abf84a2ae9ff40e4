/**
 * `SpotifyForegroundService` (songper/viewModel): start and stop commands,
 * and the polling job that regenerates the custom wallpaper when the album
 * art changes, remembering the last URL in the shared preferences.
 */
module SongperForegroundService {
  import opened Wrappers
  import opened SpotifyModel

  const ActionStart := "START_SERVICE"
  const ActionStop := "STOP_SERVICE"

  /** `Service.START_STICKY`. */
  const StartSticky := 1

  /** The poll loop's delay, in milliseconds. */
  const PollDelay := 30000

  class SpotifyForegroundService {
    var prefs: Prefs
    /** Whether the current polling job is running. */
    var polling: bool
    /** How many polling jobs have been launched. */
    var pollingJobs: nat
    /** Whether the service is in the foreground and not yet stopped. */
    var running: bool
    ghost var log: seq<Action>

    constructor(storedPrefs: Prefs)
      ensures prefs == storedPrefs && !polling && pollingJobs == 0 && running && log == []
    {
      prefs, polling, pollingJobs, running := storedPrefs, false, 0, true;
      log := [];
    }

    /**
     * `onStartCommand`: the start action starts polling, the stop action
     * stops it, any other action (or none) changes nothing; the answer is
     * always START_STICKY.
     */
    method OnStartCommand(action: Option<string>) returns (r: int)
      modifies this
      ensures r == StartSticky
      ensures action == Some(ActionStart) ==>
                polling && pollingJobs == old(pollingJobs) + 1 && running == old(running)
      ensures action == Some(ActionStop) ==>
                !polling && pollingJobs == old(pollingJobs) && !running
      ensures action != Some(ActionStart) && action != Some(ActionStop) ==>
                polling == old(polling) && pollingJobs == old(pollingJobs) && running == old(running)
      ensures prefs == old(prefs) && log == old(log)
    {
      if action == Some(ActionStart) {
        StartPolling();
      } else if action == Some(ActionStop) {
        StopPolling();
      }
      return StartSticky;
    }

    /**
     * `startPolling`: the previous job is cancelled before a new one is
     * launched, so exactly one job is running afterwards.
     */
    method StartPolling()
      modifies this
      ensures polling && pollingJobs == old(pollingJobs) + 1
      ensures prefs == old(prefs) && running == old(running) && log == old(log)
    {
      polling := false;
      pollingJobs := pollingJobs + 1;
      polling := true;
    }

    /** `stopPolling`: cancel the job, leave the foreground and stop the service. */
    method StopPolling()
      modifies this
      ensures !polling && !running
      ensures pollingJobs == old(pollingJobs) && prefs == old(prefs) && log == old(log)
    {
      polling := false;
      running := false;
    }

    /**
     * One iteration of the polling job. Without a stored token nothing
     * happens; a failing call is swallowed. A track whose first image URL
     * differs from the stored last URL is sent to the custom-wallpaper
     * renderer, and the URL is stored only if that succeeded.
     */
    method PollTick(response: Outcome<CurrentlyPlaying>, setResult: Done)
      modifies this
      ensures GetString(old(prefs), AccessTokenKey).None? || response.Failed? ==>
                prefs == old(prefs) && log == old(log)
      ensures GetString(old(prefs), AccessTokenKey).Some? && response.Ok? ==>
                var fires := response.value.item.Some? &&
                             var url := FirstImageUrl(response.value.item.value);
                             url.Some? && url != GetString(old(prefs), LastAlbumArtUrlKey);
                && (fires ==>
                      var url := FirstImageUrl(response.value.item.value).value;
                      && log == old(log) + [SetWallpaper(url)]
                      && prefs == if setResult.Ok? then old(prefs)[LastAlbumArtUrlKey := url] else old(prefs))
                && (!fires ==> prefs == old(prefs) && log == old(log))
      ensures polling == old(polling) && pollingJobs == old(pollingJobs) && running == old(running)
    {
      var accessToken := GetString(prefs, AccessTokenKey);
      if accessToken.Some? {
        match response {
          case Failed(_) =>
          case Ok(playing) =>
            if playing.item.Some? {
              var albumArtUrl := FirstImageUrl(playing.item.value);
              var lastAlbumArtUrl := GetString(prefs, LastAlbumArtUrlKey);
              if albumArtUrl.Some? && albumArtUrl != lastAlbumArtUrl {
                log := log + [SetWallpaper(albumArtUrl.value)];
                if setResult.Ok? {
                  prefs := prefs[LastAlbumArtUrlKey := albumArtUrl.value];
                }
              }
            }
        }
      }
    }

    /**
     * The polling loop, one (response, result) pair per iteration, while
     * the token stays stored. When every attempt succeeds, no two
     * consecutive requests are for the same URL; a failed attempt leaves
     * the stored URL as it was, so the same art is requested again.
     */
    method PollLoop(responses: seq<Outcome<CurrentlyPlaying>>, results: seq<Done>)
      requires |responses| == |results|
      modifies this
      ensures |old(log)| <= |log| && log[..|old(log)|] == old(log)
      ensures (forall k :: 0 <= k < |results| ==> results[k].Ok?) ==>
                var asked := PlainUrls(log[|old(log)|..]);
                && NoConsecutiveRepeats(asked)
                && (|asked| > 0 ==> GetString(prefs, LastAlbumArtUrlKey) == Some(asked[|asked| - 1]))
                && (|asked| > 0 ==> Some(asked[0]) != GetString(old(prefs), LastAlbumArtUrlKey))
      ensures polling == old(polling) && pollingJobs == old(pollingJobs) && running == old(running)
    {
      ghost var start := log;
      ghost var firstLast := GetString(prefs, LastAlbumArtUrlKey);
      ghost var allOk := forall k :: 0 <= k < |results| ==> results[k].Ok?;
      assert log[|start|..] == [];
      for k := 0 to |responses|
        invariant |start| <= |log| && log[..|start|] == start
        invariant allOk ==> AskedSince(start, log, firstLast, GetString(prefs, LastAlbumArtUrlKey))
        invariant polling == old(polling) && pollingJobs == old(pollingJobs) && running == old(running)
      {
        ghost var before, lastBefore := log, GetString(prefs, LastAlbumArtUrlKey);
        PollTick(responses[k], results[k]);
        ghost var added := log[|before|..];
        assert log == before + added;
        assert log[..|start|] == start by {
          assert log[..|start|] == before[..|start|];
        }
        if allOk {
          assert results[k].Ok?;
          AskedSinceStep(start, before, log, firstLast, lastBefore, GetString(prefs, LastAlbumArtUrlKey));
        }
      }
    }
  }

  /** The loop invariant over the requests since `start`, when every attempt succeeds. */
  ghost predicate AskedSince(start: seq<Action>, log: seq<Action>, firstLast: Option<string>, last: Option<string>)
  {
    && |start| <= |log| && log[..|start|] == start
    && var asked := PlainUrls(log[|start|..]);
       && NoConsecutiveRepeats(asked)
       && (|asked| > 0 ==> last == Some(asked[|asked| - 1]) && Some(asked[0]) != firstLast)
       && (|asked| == 0 ==> last == firstLast)
  }

  lemma AskedSinceStep(start: seq<Action>, before: seq<Action>, after: seq<Action>,
                       firstLast: Option<string>, lastBefore: Option<string>, lastAfter: Option<string>)
    requires AskedSince(start, before, firstLast, lastBefore)
    requires |before| <= |after| && after[..|before|] == before
    requires lastAfter != lastBefore ==> lastAfter.Some?
    requires PlainUrls(after[|before|..]) == if lastAfter != lastBefore then [lastAfter.value] else []
    ensures AskedSince(start, after, firstLast, lastAfter)
  {
    var added := after[|before|..];
    assert after == before + added;
    assert after[|start|..] == before[|start|..] + added;
    assert after[..|start|] == before[..|start|];
    PlainUrlsAppend(before[|start|..], added);
    var askedBefore := PlainUrls(before[|start|..]);
    if lastAfter != lastBefore {
      NoConsecutiveRepeatsSnoc(askedBefore, lastAfter.value);
      assert PlainUrls(after[|start|..]) == askedBefore + [lastAfter.value];
    } else {
      assert PlainUrls(after[|start|..]) == askedBefore;
    }
  }
}
