/**
 * `SpotifyViewModel` of the `sonicover.viewmodel` package
 * (songper/viewmodel/SpotifyViewModel.kt): login, polling the currently
 * playing track, and asking for a designed wallpaper whenever the album art
 * changes. Coroutines run to completion where they are launched; the
 * Spotify calls' outcomes are parameters; platform requests go to a ghost
 * log.
 */
module SonicoverSpotifyViewModel {
  import opened Wrappers
  import opened SpotifyModel

  const DefaultPollingInterval := 100

  /** `currentlyPlaying?.item?.name ?: "Unknown Song"`. */
  function SongName(playing: Option<CurrentlyPlaying>): (name: string)
    ensures playing.Some? && playing.value.item.Some? ==> name == playing.value.item.value.name
    ensures playing.None? || playing.value.item.None? ==> name == "Unknown Song"
  {
    if playing.Some? && playing.value.item.Some? then playing.value.item.value.name else "Unknown Song"
  }

  /** A snapshot of every field of the view model. */
  datatype ViewState = ViewState(
    isLoggedIn: bool,
    userName: Option<string>,
    albumArtUrl: Option<string>,
    selectedDesign: Option<string>,
    errorMessage: Option<string>,
    isSettingWallpaper: bool,
    accessToken: Option<string>,
    polling: bool,
    pollingJobs: nat,
    pollingInterval: int,
    lastAlbumArtUrl: Option<string>,
    hasContext: bool,
    currentlyPlaying: Option<CurrentlyPlaying>,
    prefs: Prefs)

  /**
   * What one poll tick does to the log and the last URL seen: it only
   * appends, and it requests a regeneration exactly when it moves the last
   * URL seen, for the new URL.
   */
  ghost predicate TickSummary(before: seq<Action>, after: seq<Action>, lastBefore: Option<string>, lastAfter: Option<string>)
  {
    && |before| <= |after| && after[..|before|] == before
    && (lastAfter != lastBefore ==> lastAfter.Some?)
    && DesignedUrls(after[|before|..]) == if lastAfter != lastBefore then [lastAfter.value] else []
  }

  /** The polling loop's invariant over the requests since `start`. */
  ghost predicate FiredSince(start: seq<Action>, log: seq<Action>, firstLast: Option<string>, last: Option<string>)
  {
    && |start| <= |log| && log[..|start|] == start
    && var fired := DesignedUrls(log[|start|..]);
       && NoConsecutiveRepeats(fired)
       && (|fired| > 0 && firstLast.Some? ==> fired[0] != firstLast.value)
       && (|fired| > 0 ==> last == Some(fired[|fired| - 1]))
       && (|fired| == 0 ==> last == firstLast)
  }

  lemma FiredSinceStep(start: seq<Action>, before: seq<Action>, after: seq<Action>,
                       firstLast: Option<string>, lastBefore: Option<string>, lastAfter: Option<string>)
    requires FiredSince(start, before, firstLast, lastBefore)
    requires TickSummary(before, after, lastBefore, lastAfter)
    ensures FiredSince(start, after, firstLast, lastAfter)
  {
    var added := after[|before|..];
    assert after == before + added;
    assert after[|start|..] == before[|start|..] + added;
    assert after[..|start|] == before[..|start|];
    DesignedUrlsAppend(before[|start|..], added);
    var firedBefore := DesignedUrls(before[|start|..]);
    if lastAfter != lastBefore {
      NoConsecutiveRepeatsSnoc(firedBefore, lastAfter.value);
      assert DesignedUrls(after[|start|..]) == firedBefore + [lastAfter.value];
    } else {
      assert DesignedUrls(after[|start|..]) == firedBefore;
    }
  }

  /**
   * The view model's companion object. `currentlyPlaying` lives here, so
   * every view model instance reads and writes the same track.
   */
  class Companion {
    var currentlyPlaying: Option<CurrentlyPlaying>

    /** The companion starts with no track. */
    constructor()
      ensures currentlyPlaying == None
    {
      currentlyPlaying := None;
    }
  }

  class SpotifyViewModel {
    var isLoggedIn: bool
    var userName: Option<string>
    var albumArtUrl: Option<string>
    var selectedDesign: Option<string>
    var errorMessage: Option<string>
    var isSettingWallpaper: bool
    var accessToken: Option<string>
    /** Whether the current polling job is running. */
    var polling: bool
    /** How many polling jobs have been launched. */
    var pollingJobs: nat
    var pollingInterval: int
    var lastAlbumArtUrl: Option<string>
    /** Whether `initialize` has supplied the application context. */
    var hasContext: bool
    /** The companion object, shared with every other instance. */
    const companion: Companion
    var prefs: Prefs
    ghost var log: seq<Action>

    ghost function State(): ViewState
      reads this, companion
    {
      ViewState(isLoggedIn, userName, albumArtUrl, selectedDesign, errorMessage, isSettingWallpaper,
                accessToken, polling, pollingJobs, pollingInterval, lastAlbumArtUrl, hasContext,
                companion.currentlyPlaying, prefs)
    }

    /**
     * A fresh view model over the preferences already stored on the device
     * and the companion object; the companion's track is left as it is.
     */
    constructor(storedPrefs: Prefs, shared: Companion)
      ensures companion == shared
      ensures State() == ViewState(false, None, None, None, None, false, None, false, 0,
                                   DefaultPollingInterval, None, false, shared.currentlyPlaying, storedPrefs)
      ensures log == []
    {
      isLoggedIn, userName, albumArtUrl, selectedDesign := false, None, None, None;
      errorMessage, isSettingWallpaper, accessToken := None, false, None;
      polling, pollingJobs, pollingInterval := false, 0, DefaultPollingInterval;
      lastAlbumArtUrl, hasContext, prefs := None, false, storedPrefs;
      companion := shared;
      log := [];
    }

    /** `initialize`: the application context becomes available. */
    method Initialize()
      modifies this
      ensures State() == old(State()).(hasContext := true) && log == old(log)
    {
      hasContext := true;
    }

    /**
     * `updateWallpaperWithCurrentTrack`: with an album-art URL and a
     * context, ask for a wallpaper of the selected design titled with the
     * current song; otherwise do nothing.
     */
    method UpdateWallpaperWithCurrentTrack()
      modifies this
      ensures State() == old(State())
      ensures log == old(log) +
                if albumArtUrl.Some? && hasContext
                then [SetDesignedWallpaper(albumArtUrl.value, selectedDesign, SongName(companion.currentlyPlaying))]
                else []
    {
      if albumArtUrl.Some? && hasContext {
        log := log + [SetDesignedWallpaper(albumArtUrl.value, selectedDesign, SongName(companion.currentlyPlaying))];
      }
    }

    /**
     * `updateWallpaper(designType)`: remember the design, persist it when
     * there is a context, and regenerate at once.
     */
    method UpdateWallpaperDesign(designType: string)
      modifies this
      ensures State() == old(State()).(
                selectedDesign := Some(designType),
                prefs := if hasContext then old(prefs)[SelectedDesignKey := designType] else old(prefs))
      ensures log == old(log) +
                if albumArtUrl.Some? && hasContext
                then [SetDesignedWallpaper(albumArtUrl.value, Some(designType), SongName(companion.currentlyPlaying))]
                else []
    {
      selectedDesign := Some(designType);
      if hasContext {
        prefs := prefs[SelectedDesignKey := designType];
      }
      UpdateWallpaperWithCurrentTrack();
    }

    /** `startPollingCurrentTrack`: cancel the running job, if any, and launch a new one. */
    method StartPollingCurrentTrack()
      modifies this
      ensures State() == old(State()).(polling := true, pollingJobs := old(pollingJobs) + 1)
      ensures log == old(log)
    {
      polling := false;
      pollingJobs := pollingJobs + 1;
      polling := true;
    }

    /**
     * One iteration of the polling loop. Without a token nothing happens;
     * a failed call records the error; a response with a track records it
     * and its first image URL, and a URL other than the last one seen
     * triggers a regeneration (when there is a context) and becomes the
     * last one seen.
     */
    method PollTick(response: Outcome<CurrentlyPlaying>)
      modifies this, companion
      ensures old(accessToken).None? || (response.Ok? && response.value.item.None?) ==>
                State() == old(State()) && log == old(log)
      ensures old(accessToken).Some? && response.Failed? ==>
                && State() == old(State()).(errorMessage := Some("Failed to fetch current track: " + response.message))
                && log == old(log)
      ensures old(accessToken).Some? && response.Ok? && response.value.item.Some? ==>
                var track := response.value.item.value;
                var url := FirstImageUrl(track);
                var fires := old(hasContext) && url.Some? && url != old(lastAlbumArtUrl);
                && State() == old(State()).(
                     currentlyPlaying := Some(CurrentlyPlaying(Some(track), response.value.isPlaying)),
                     albumArtUrl := url,
                     lastAlbumArtUrl := if fires then url else old(lastAlbumArtUrl))
                && log == old(log) + (if fires then [SetDesignedWallpaper(url.value, selectedDesign, track.name)] else [])
      ensures TickSummary(old(log), log, old(lastAlbumArtUrl), lastAlbumArtUrl)
    {
      ghost var before := log;
      if accessToken.Some? {
        match response
        case Failed(message) =>
          errorMessage := Some("Failed to fetch current track: " + message);
        case Ok(playing) =>
          if playing.item.Some? {
            var track := playing.item.value;
            companion.currentlyPlaying := Some(CurrentlyPlaying(Some(track), playing.isPlaying));
            albumArtUrl := FirstImageUrl(track);
            if hasContext && albumArtUrl.Some? {
              var url := albumArtUrl.value;
              if Some(url) != lastAlbumArtUrl {
                UpdateWallpaperWithCurrentTrack();
                lastAlbumArtUrl := Some(url);
                assert DesignedUrls(log[|before|..]) == [url] by {
                  assert log[|before|..] == [SetDesignedWallpaper(url, selectedDesign, track.name)];
                }
              }
            }
          }
      }
    }

    /**
     * The polling loop, one response per iteration. Every regeneration it
     * requests is for a URL other than the one requested just before it
     * (and other than the last URL seen when the loop began), so a track
     * whose art stays the same triggers at most one regeneration.
     */
    method PollLoop(responses: seq<Outcome<CurrentlyPlaying>>)
      modifies this, companion
      ensures FiredSince(old(log), log, old(lastAlbumArtUrl), lastAlbumArtUrl)
    {
      ghost var start := log;
      ghost var firstLast := lastAlbumArtUrl;
      assert log[|start|..] == [];
      for k := 0 to |responses|
        invariant FiredSince(start, log, firstLast, lastAlbumArtUrl)
      {
        ghost var before, lastBefore := log, lastAlbumArtUrl;
        PollTick(responses[k]);
        FiredSinceStep(start, before, log, firstLast, lastBefore, lastAlbumArtUrl);
      }
    }

    /** `setPollingInterval`: store the interval; restart polling only when logged in. */
    method SetPollingInterval(intervalMs: int)
      modifies this
      ensures old(isLoggedIn) ==>
                State() == old(State()).(pollingInterval := intervalMs, polling := true,
                                         pollingJobs := old(pollingJobs) + 1)
      ensures !old(isLoggedIn) ==> State() == old(State()).(pollingInterval := intervalMs)
      ensures log == old(log)
    {
      pollingInterval := intervalMs;
      if isLoggedIn {
        StartPollingCurrentTrack();
      }
    }

    /**
     * `fetchUserData`: keep the token, then on a profile show its name, log
     * in and start polling; on a failure record it and stay logged out.
     */
    method FetchUserData(token: string, profile: Outcome<UserProfile>)
      modifies this
      ensures profile.Ok? ==>
                State() == old(State()).(accessToken := Some(token), userName := Some(ShownName(profile.value)),
                                         isLoggedIn := true, polling := true, pollingJobs := old(pollingJobs) + 1)
      ensures profile.Failed? ==>
                State() == old(State()).(accessToken := Some(token), isLoggedIn := false,
                                         errorMessage := Some("Failed to fetch user data: " + profile.message))
      ensures log == old(log)
    {
      accessToken := Some(token);
      match profile
      case Ok(p) =>
        userName := Some(ShownName(p));
        isLoggedIn := true;
        StartPollingCurrentTrack();
      case Failed(message) =>
        errorMessage := Some("Failed to fetch user data: " + message);
        isLoggedIn := false;
    }

    /**
     * `handleLoginResult`: a token is stored for the background worker,
     * the profile is fetched and the foreground service started (its
     * failure reads "Login failed: ..."); an error response reads "Login
     * failed: ..." and anything else "Login canceled".
     */
    method HandleLoginResult(response: AuthResponse, profile: Outcome<UserProfile>, serviceStart: Done)
      modifies this
      ensures response.TokenResponse? && profile.Ok? ==>
                && State() == old(State()).(prefs := old(prefs)[AccessTokenKey := response.accessToken],
                                            accessToken := Some(response.accessToken),
                                            userName := Some(ShownName(profile.value)),
                                            isLoggedIn := true, polling := true, pollingJobs := old(pollingJobs) + 1,
                                            errorMessage := if serviceStart.Failed?
                                                            then Some("Login failed: " + serviceStart.message)
                                                            else old(errorMessage))
                && log == old(log) + [StartForegroundService]
      ensures response.TokenResponse? && profile.Failed? ==>
                && State() == old(State()).(prefs := old(prefs)[AccessTokenKey := response.accessToken],
                                            accessToken := Some(response.accessToken), isLoggedIn := false,
                                            errorMessage := if serviceStart.Failed?
                                                            then Some("Login failed: " + serviceStart.message)
                                                            else Some("Failed to fetch user data: " + profile.message))
                && log == old(log) + [StartForegroundService]
      ensures response.ErrorResponse? ==>
                State() == old(State()).(errorMessage := Some("Login failed: " + response.error)) && log == old(log)
      ensures response.OtherResponse? ==>
                State() == old(State()).(errorMessage := Some("Login canceled")) && log == old(log)
    {
      match response
      case TokenResponse(token) =>
        prefs := prefs[AccessTokenKey := token];
        FetchUserData(token, profile);
        log := log + [StartForegroundService];
        if serviceStart.Failed? {
          errorMessage := Some("Login failed: " + serviceStart.message);
        }
      case ErrorResponse(error) =>
        errorMessage := Some("Login failed: " + error);
      case OtherResponse =>
        errorMessage := Some("Login canceled");
    }

    /**
     * `updateWallpaper(context, imageUrl)`: a plain wallpaper request;
     * success clears the error, failure records it, and the busy flag is
     * down again afterwards.
     */
    method UpdateWallpaper(imageUrl: string, result: Done)
      modifies this
      ensures State() == old(State()).(
                isSettingWallpaper := false,
                errorMessage := if result.Ok? then None else Some("Failed to set wallpaper: " + result.message))
      ensures log == old(log) + [SetWallpaper(imageUrl)]
    {
      isSettingWallpaper := true;
      log := log + [SetWallpaper(imageUrl)];
      match result {
        case Ok(_) =>
          errorMessage := None;
        case Failed(message) =>
          errorMessage := Some("Failed to set wallpaper: " + message);
      }
      isSettingWallpaper := false;
    }

    /**
     * `onLogout`: stop polling, forget the session and the track, and,
     * with a context, stop the service and clear the stored preferences.
     */
    method OnLogout()
      modifies this, companion
      ensures State() == old(State()).(
                polling := false, accessToken := None, isLoggedIn := false, userName := None,
                currentlyPlaying := None, albumArtUrl := None, lastAlbumArtUrl := None,
                prefs := if hasContext then map[] else old(prefs))
      ensures log == old(log) + if hasContext then [StopForegroundService] else []
    {
      polling := false;
      accessToken, isLoggedIn, userName := None, false, None;
      companion.currentlyPlaying, albumArtUrl, lastAlbumArtUrl := None, None, None;
      if hasContext {
        log := log + [StopForegroundService];
        prefs := map[];
      }
    }
  }
}
