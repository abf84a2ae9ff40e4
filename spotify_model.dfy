/**
 * The Spotify Web API records the app reads (`Model/User.kt`), the outcome
 * of a call that can throw, the authorization responses, and the
 * observable platform actions the view models, the worker and the service
 * request. Network calls are not modelled: their outcomes are inputs.
 */
module SpotifyModel {
  import opened Wrappers
  import opened KotlinText

  datatype UserProfile = UserProfile(displayName: Option<string>, id: string)
  datatype Image = Image(url: string, height: int, width: int)
  datatype Album = Album(images: seq<Image>)
  datatype Artist = Artist(name: string)
  datatype Track = Track(name: string, artists: seq<Artist>, album: Album)
  datatype CurrentlyPlaying = CurrentlyPlaying(item: Option<Track>, isPlaying: bool)

  /** The result of a call that either returns a value or throws with a message. */
  datatype Outcome<T> = Ok(value: T) | Failed(message: string)

  /** `Result<Unit>` of a wallpaper call, and of the worker. */
  type Done = Outcome<()>

  /** The Spotify SDK's authorization response, by type. */
  datatype AuthResponse =
    | TokenResponse(accessToken: string)
    | ErrorResponse(error: string)
    | OtherResponse   // CODE, EMPTY or UNKNOWN

  /**
   * Platform requests made by the model: recorded, never carried out.
   * `SetDesignedWallpaper` is a wallpaper call given a design tag and a
   * title; `SetWallpaper` is one given only the image URL, which the
   * callee renders in its own default way.
   */
  datatype Action =
    | SetDesignedWallpaper(url: string, design: Option<string>, songName: string)
    | SetWallpaper(url: string)
    | StartForegroundService
    | StopForegroundService

  /** The shared-preferences file "spotify_prefs". */
  type Prefs = map<string, string>

  const AccessTokenKey := "access_token"
  const SelectedDesignKey := "selected_design"
  const LastAlbumArtUrlKey := "last_album_art_url"

  /** `sharedPrefs.getString(key, null)`. */
  function GetString(prefs: Prefs, key: string): (v: Option<string>)
    ensures v.Some? <==> key in prefs
    ensures v.Some? ==> v.value == prefs[key]
  {
    if key in prefs then Some(prefs[key]) else None
  }

  /** `track.album.images.firstOrNull()?.url`. */
  function FirstImageUrl(track: Track): (u: Option<string>)
    ensures u.Some? <==> |track.album.images| > 0
    ensures u.Some? ==> u.value == track.album.images[0].url
  {
    if |track.album.images| > 0 then Some(track.album.images[0].url) else None
  }

  /** `profile.display_name ?: profile.id`. */
  function ShownName(profile: UserProfile): (n: string)
    ensures profile.displayName.Some? ==> n == profile.displayName.value
    ensures profile.displayName.None? ==> n == profile.id
  {
    profile.displayName.GetOr(profile.id)
  }

  /** The artists' names, in order. */
  function ArtistNames(artists: seq<Artist>): (names: seq<string>)
    ensures |names| == |artists|
    ensures forall i :: 0 <= i < |artists| ==> names[i] == artists[i].name
  {
    seq(|artists|, i requires 0 <= i < |artists| => artists[i].name)
  }

  /** The URLs requested by the designed-wallpaper actions of `log`, in order. */
  function DesignedUrls(log: seq<Action>): (urls: seq<string>)
    ensures |urls| <= |log|
  {
    if log == [] then []
    else DesignedUrls(log[..|log| - 1]) +
         (if log[|log| - 1].SetDesignedWallpaper? then [log[|log| - 1].url] else [])
  }

  /** The URLs requested by the plain wallpaper actions of `log`, in order. */
  function PlainUrls(log: seq<Action>): (urls: seq<string>)
    ensures |urls| <= |log|
  {
    if log == [] then []
    else PlainUrls(log[..|log| - 1]) +
         (if log[|log| - 1].SetWallpaper? then [log[|log| - 1].url] else [])
  }

  lemma DesignedUrlsAppend(log: seq<Action>, more: seq<Action>)
    ensures DesignedUrls(log + more) == DesignedUrls(log) + DesignedUrls(more)
    decreases |more|
  {
    if more == [] {
      assert log + more == log;
    } else {
      var front := more[..|more| - 1];
      assert (log + more)[..|log + more| - 1] == log + front;
      DesignedUrlsAppend(log, front);
    }
  }

  lemma PlainUrlsAppend(log: seq<Action>, more: seq<Action>)
    ensures PlainUrls(log + more) == PlainUrls(log) + PlainUrls(more)
    decreases |more|
  {
    if more == [] {
      assert log + more == log;
    } else {
      var front := more[..|more| - 1];
      assert (log + more)[..|log + more| - 1] == log + front;
      PlainUrlsAppend(log, front);
    }
  }

  /** No two consecutive entries are equal. */
  predicate NoConsecutiveRepeats(urls: seq<string>)
  {
    forall i :: 0 <= i < |urls| - 1 ==> urls[i] != urls[i + 1]
  }

  /** Appending an entry other than the last keeps the sequence free of consecutive repeats. */
  lemma NoConsecutiveRepeatsSnoc(urls: seq<string>, u: string)
    requires NoConsecutiveRepeats(urls)
    requires |urls| > 0 ==> urls[|urls| - 1] != u
    ensures NoConsecutiveRepeats(urls + [u])
  {
    var longer := urls + [u];
    forall i | 0 <= i < |longer| - 1
      ensures longer[i] != longer[i + 1]
    {
      if i + 1 < |urls| {
        assert longer[i] == urls[i] && longer[i + 1] == urls[i + 1];
      } else {
        assert longer[i] == urls[|urls| - 1] && longer[i + 1] == u;
      }
    }
  }
}
