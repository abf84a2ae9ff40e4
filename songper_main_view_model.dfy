/**
 * `PermissionUtil` and `SpotifyViewModel` of the `songper.viewModel`
 * package (songper/viewModel/MainViewModel.kt): the runtime permissions
 * the app asks for, and a view model that polls the current track and sets
 * the album art itself as the wallpaper when it changes.
 */
module SongperMainViewModel {
  import opened Wrappers
  import opened KotlinText
  import opened SpotifyModel

  const SetWallpaperPermission := "android.permission.SET_WALLPAPER"
  const ReadExternalStorage := "android.permission.READ_EXTERNAL_STORAGE"
  const WriteExternalStorage := "android.permission.WRITE_EXTERNAL_STORAGE"

  /** `Build.VERSION_CODES.P`. */
  const SdkP := 28

  /** `requiredPermissions`: reading storage is asked for only from Android P on. */
  function RequiredPermissions(sdkInt: int): (ps: seq<string>)
    ensures SetWallpaperPermission in ps && WriteExternalStorage in ps
    ensures ReadExternalStorage in ps <==> sdkInt >= SdkP
    ensures |ps| == if sdkInt >= SdkP then 3 else 2
    ensures ps[0] == SetWallpaperPermission && ps[|ps| - 1] == WriteExternalStorage
  {
    if sdkInt >= SdkP then [SetWallpaperPermission, ReadExternalStorage, WriteExternalStorage]
    else [SetWallpaperPermission, WriteExternalStorage]
  }

  /** `requiredPermissions.all { granted(it) }`. */
  function AllGranted(ps: seq<string>, granted: string -> bool): (b: bool)
    ensures b <==> forall i :: 0 <= i < |ps| ==> granted(ps[i])
  {
    if ps == [] then true else granted(ps[0]) && AllGranted(ps[1..], granted)
  }

  /** `requiredPermissions.any { needsRationale(it) }`. */
  function AnyNeedsRationale(ps: seq<string>, needsRationale: string -> bool): (b: bool)
    ensures b <==> exists i :: 0 <= i < |ps| && needsRationale(ps[i])
  {
    if ps == [] then false else needsRationale(ps[0]) || AnyNeedsRationale(ps[1..], needsRationale)
  }

  /** `hasPermissions`: every required permission is granted. */
  function HasPermissions(sdkInt: int, granted: string -> bool): (b: bool)
    ensures b <==> forall p :: p in RequiredPermissions(sdkInt) ==> granted(p)
  {
    AllGranted(RequiredPermissions(sdkInt), granted)
  }

  /** `shouldShowRationale`: some required permission needs a rationale. */
  function ShouldShowRationale(sdkInt: int, needsRationale: string -> bool): (b: bool)
    ensures b <==> exists p :: p in RequiredPermissions(sdkInt) && needsRationale(p)
  {
    AnyNeedsRationale(RequiredPermissions(sdkInt), needsRationale)
  }

  /** `"${track.name} by ${track.artists.joinToString { it.name }}"`. */
  function NowPlayingText(track: Track): (s: string)
    ensures |track.artists| == 1 ==> s == track.name + " by " + track.artists[0].name
    ensures |track.artists| == 0 ==> s == track.name + " by "
  {
    track.name + " by " + Join(ArtistNames(track.artists), ", ")
  }

  /** The poll loop's delay, in milliseconds. */
  const PollDelay := 3000

  datatype ViewState = ViewState(
    isLoggedIn: bool,
    userName: Option<string>,
    currentlyPlaying: Option<string>,
    albumArtUrl: Option<string>,
    errorMessage: Option<string>,
    isSettingWallpaper: bool,
    accessToken: Option<string>,
    polling: bool,
    pollingJobs: nat,
    lastAlbumArtUrl: Option<string>,
    hasContext: bool)

  class SpotifyViewModel {
    var isLoggedIn: bool
    var userName: Option<string>
    var currentlyPlaying: Option<string>
    var albumArtUrl: Option<string>
    var errorMessage: Option<string>
    var isSettingWallpaper: bool
    var accessToken: Option<string>
    var polling: bool
    var pollingJobs: nat
    var lastAlbumArtUrl: Option<string>
    var hasContext: bool
    ghost var log: seq<Action>

    ghost function State(): ViewState
      reads this
    {
      ViewState(isLoggedIn, userName, currentlyPlaying, albumArtUrl, errorMessage, isSettingWallpaper,
                accessToken, polling, pollingJobs, lastAlbumArtUrl, hasContext)
    }

    constructor()
      ensures State() == ViewState(false, None, None, None, None, false, None, false, 0, None, false)
      ensures log == []
    {
      isLoggedIn, userName, currentlyPlaying, albumArtUrl := false, None, None, None;
      errorMessage, isSettingWallpaper, accessToken := None, false, None;
      polling, pollingJobs, lastAlbumArtUrl, hasContext := false, 0, None, false;
      log := [];
    }

    method Initialize()
      modifies this
      ensures State() == old(State()).(hasContext := true) && log == old(log)
    {
      hasContext := true;
    }

    method StartPollingCurrentTrack()
      modifies this
      ensures State() == old(State()).(polling := true, pollingJobs := old(pollingJobs) + 1)
      ensures log == old(log)
    {
      polling := false;
      pollingJobs := pollingJobs + 1;
      polling := true;
    }

    /**
     * `updateWallpaper`: set the album art as the wallpaper; success clears
     * the error, failure records it, and the busy flag is down afterwards.
     */
    method UpdateWallpaper(imageUrl: string, result: Done)
      modifies this
      ensures State() == old(State()).(
                isSettingWallpaper := false,
                errorMessage := if result.Ok? then None else Some("Failed to set wallpaper: " + result.message))
      ensures log == old(log) + [SetWallpaper(imageUrl)]
    {
      isSettingWallpaper := true;
      log := log + [SetWallpaper(imageUrl)];
      match result {
        case Ok(_) =>
          errorMessage := None;
        case Failed(message) =>
          errorMessage := Some("Failed to set wallpaper: " + message);
      }
      isSettingWallpaper := false;
    }

    /**
     * One iteration of the polling loop. A track is shown as "<name> by
     * <artists>" and its first image URL recorded. When that URL (possibly
     * none) differs from the last one, the wallpaper is set if there is a
     * URL and a context, and the last URL becomes the new one in every case,
     * even when nothing was set. `setResult` is the outcome of setting the
     * wallpaper, read only when it is set.
     */
    method PollTick(response: Outcome<CurrentlyPlaying>, setResult: Done)
      modifies this
      ensures old(accessToken).None? || (response.Ok? && response.value.item.None?) ==>
                State() == old(State()) && log == old(log)
      ensures old(accessToken).Some? && response.Failed? ==>
                && State() == old(State()).(errorMessage := Some("Failed to fetch current track: " + response.message))
                && log == old(log)
      ensures old(accessToken).Some? && response.Ok? && response.value.item.Some? ==>
                var track := response.value.item.value;
                var url := FirstImageUrl(track);
                var changed := url != old(lastAlbumArtUrl);
                var sets := changed && url.Some? && old(hasContext);
                && currentlyPlaying == Some(NowPlayingText(track))
                && albumArtUrl == url
                && lastAlbumArtUrl == (if changed then url else old(lastAlbumArtUrl))
                && lastAlbumArtUrl == url
                && log == old(log) + (if sets then [SetWallpaper(url.value)] else [])
                && State() == old(State()).(
                     currentlyPlaying := Some(NowPlayingText(track)), albumArtUrl := url, lastAlbumArtUrl := url,
                     isSettingWallpaper := if sets then false else old(isSettingWallpaper),
                     errorMessage := if !sets then old(errorMessage)
                                     else if setResult.Ok? then None
                                     else Some("Failed to set wallpaper: " + setResult.message))
    {
      if accessToken.Some? {
        match response {
          case Failed(message) =>
            errorMessage := Some("Failed to fetch current track: " + message);
          case Ok(playing) =>
            if playing.item.Some? {
              var track := playing.item.value;
              currentlyPlaying := Some(NowPlayingText(track));
              albumArtUrl := FirstImageUrl(track);
              if albumArtUrl != lastAlbumArtUrl {
                if albumArtUrl.Some? && hasContext {
                  UpdateWallpaper(albumArtUrl.value, setResult);
                }
                lastAlbumArtUrl := albumArtUrl;
              }
            }
        }
      }
    }

    /**
     * `fetchUserData`: keep the token, then on a profile show its name, log
     * in and start polling; on a failure record it and stay logged out.
     */
    method FetchUserData(token: string, profile: Outcome<UserProfile>)
      modifies this
      ensures profile.Ok? ==>
                State() == old(State()).(accessToken := Some(token), userName := Some(ShownName(profile.value)),
                                         isLoggedIn := true, polling := true, pollingJobs := old(pollingJobs) + 1)
      ensures profile.Failed? ==>
                State() == old(State()).(accessToken := Some(token), isLoggedIn := false,
                                         errorMessage := Some("Failed to fetch user data: " + profile.message))
      ensures log == old(log)
    {
      accessToken := Some(token);
      match profile {
        case Ok(p) =>
          userName := Some(ShownName(p));
          isLoggedIn := true;
          StartPollingCurrentTrack();
        case Failed(message) =>
          errorMessage := Some("Failed to fetch user data: " + message);
          isLoggedIn := false;
      }
    }

    /**
     * `handleLoginResult`: a token leads to fetching the profile; an error
     * response reads "Login failed: ..." and anything else "Login canceled".
     */
    method HandleLoginResult(response: AuthResponse, profile: Outcome<UserProfile>)
      modifies this
      ensures response.TokenResponse? && profile.Ok? ==>
                State() == old(State()).(accessToken := Some(response.accessToken),
                                         userName := Some(ShownName(profile.value)),
                                         isLoggedIn := true, polling := true, pollingJobs := old(pollingJobs) + 1)
      ensures response.TokenResponse? && profile.Failed? ==>
                State() == old(State()).(accessToken := Some(response.accessToken), isLoggedIn := false,
                                         errorMessage := Some("Failed to fetch user data: " + profile.message))
      ensures response.ErrorResponse? ==>
                State() == old(State()).(errorMessage := Some("Login failed: " + response.error))
      ensures response.OtherResponse? ==>
                State() == old(State()).(errorMessage := Some("Login canceled"))
      ensures log == old(log)
    {
      match response {
        case TokenResponse(token) =>
          FetchUserData(token, profile);
        case ErrorResponse(error) =>
          errorMessage := Some("Login failed: " + error);
        case OtherResponse =>
          errorMessage := Some("Login canceled");
      }
    }

    /** `onLogout`: stop polling and forget the session, the track and the last URL. */
    method OnLogout()
      modifies this
      ensures State() == old(State()).(
                polling := false, accessToken := None, isLoggedIn := false, userName := None,
                currentlyPlaying := None, albumArtUrl := None, lastAlbumArtUrl := None)
      ensures log == old(log)
    {
      polling := false;
      accessToken, isLoggedIn, userName := None, false, None;
      currentlyPlaying, albumArtUrl, lastAlbumArtUrl := None, None, None;
    }
  }
}
