/**
 * `WallpaperUtil` and `SpotifyBackgroundWorker` of the `sonicover.viewmodel`
 * package (songper/viewmodel/MainViewModel.kt): which renderer a design
 * tag selects, the default layout, the circular crop, and the background
 * worker's decision whether to regenerate.
 */
module SonicoverMainViewModel {
  import opened Wrappers
  import opened KotlinNumbers
  import opened SpotifyModel
  import ArtLayout

  /** The renderer `setCustomWallpaperFromUrl` calls, with the title it passes. */
  datatype Renderer = DesignA(songName: string) | DesignB(songName: string) | DefaultDesign

  /**
   * The `when (designType)` of `setCustomWallpaperFromUrl`: "A" and "B"
   * pick their designs, titled with the song name or "Unknown Song"; every
   * other tag, and no tag, picks the default gradient wallpaper.
   */
  function ChooseRenderer(designType: Option<string>, songName: Option<string>): (r: Renderer)
    ensures r.DesignA? <==> designType == Some("A")
    ensures r.DesignB? <==> designType == Some("B")
    ensures r.DefaultDesign? <==> designType != Some("A") && designType != Some("B")
    ensures !r.DefaultDesign? ==> r.songName == songName.GetOr("Unknown Song")
  {
    match designType
    case Some(tag) =>
      if tag == "A" then DesignA(songName.GetOr("Unknown Song"))
      else if tag == "B" then DesignB(songName.GetOr("Unknown Song"))
      else DefaultDesign
    case None => DefaultDesign
  }

  /**
   * `setCustomWallpaperFromUrl`: `failure` is the message of the exception
   * thrown while downloading, rendering or setting the bitmap, if any; any
   * such exception becomes a failed result, and otherwise the wallpaper is
   * the chosen renderer's.
   */
  function SetCustomWallpaperFromUrl(designType: Option<string>, songName: Option<string>, failure: Option<string>)
    : (r: Outcome<Renderer>)
    ensures r.Failed? <==> failure.Some?
    ensures r.Failed? ==> r.message == failure.value
    ensures r.Ok? ==> r.value == ChooseRenderer(designType, songName)
  {
    if failure.Some? then Failed(failure.value) else Ok(ChooseRenderer(designType, songName))
  }

  /**
   * `createDefaultWallpaperBitmap`'s art square: 40% of the screen width,
   * centred; it lies within the width, and within the height when the
   * screen is at least that tall.
   */
  function DefaultArtPlacement(screenWidth: nat, screenHeight: nat): (p: ArtLayout.Placement)
    requires screenWidth <= IntMax
    ensures p.side == 2 * screenWidth / 5
    ensures 0.0 <= p.left && p.left + p.side as real <= screenWidth as real
    ensures p.side <= screenHeight ==> 0.0 <= p.top && p.top + p.side as real <= screenHeight as real
    ensures p.left + p.side as real / 2.0 == screenWidth as real / 2.0
    ensures p.top + p.side as real / 2.0 == screenHeight as real / 2.0
  {
    ArtLayout.Centered(screenWidth, screenHeight, ArtLayout.FortyPercent(screenWidth))
  }

  /** The mask of `createCircularBitmap`: an output of the source's size and a circle in it. */
  datatype CircularMask = CircularMask(width: nat, height: nat, centerX: real, centerY: real, radius: real)

  /**
   * `createCircularBitmap`: the output keeps the source's size, and the
   * circle is centred with radius half the shorter side, so it touches the
   * nearer pair of edges and stays inside the bitmap.
   */
  function CreateCircularMask(width: nat, height: nat): (m: CircularMask)
    ensures m.width == width && m.height == height
    ensures m.centerX == width as real / 2.0 && m.centerY == height as real / 2.0
    ensures m.radius == (if width <= height then width else height) as real / 2.0
    ensures 0.0 <= m.centerX - m.radius && m.centerX + m.radius <= width as real
    ensures 0.0 <= m.centerY - m.radius && m.centerY + m.radius <= height as real
  {
    var radius := (if width <= height then width else height) as real / 2.0;
    CircularMask(width, height, width as real / 2.0, height as real / 2.0, radius)
  }

  datatype WorkResult = Success | Failure

  /**
   * `SpotifyBackgroundWorker`: one run of `doWork` over the stored
   * preferences.
   */
  class SpotifyBackgroundWorker {
    var prefs: Prefs
    ghost var log: seq<Action>

    constructor(storedPrefs: Prefs)
      ensures prefs == storedPrefs && log == []
    {
      prefs := storedPrefs;
      log := [];
    }

    /**
     * Without a stored token the run fails before calling the API; a
     * failing call fails the run; otherwise the run succeeds. A track whose
     * first image URL differs from the stored last URL is rendered in the
     * stored design ("default" when none), and its URL is stored only when
     * setting the wallpaper succeeded, so a failed attempt is retried by the
     * next run.
     */
    method DoWork(response: Outcome<CurrentlyPlaying>, setResult: Done) returns (result: WorkResult)
      modifies this
      ensures GetString(old(prefs), AccessTokenKey).None? ==>
                result == Failure && prefs == old(prefs) && log == old(log)
      ensures GetString(old(prefs), AccessTokenKey).Some? && response.Failed? ==>
                result == Failure && prefs == old(prefs) && log == old(log)
      ensures GetString(old(prefs), AccessTokenKey).Some? && response.Ok? ==>
                && result == Success
                && var fires := response.value.item.Some? &&
                                var url := FirstImageUrl(response.value.item.value);
                                url.Some? && url != GetString(old(prefs), LastAlbumArtUrlKey);
                   && (fires ==>
                         var track := response.value.item.value;
                         var url := FirstImageUrl(track).value;
                         && log == old(log) + [SetDesignedWallpaper(url, Some(GetString(old(prefs), SelectedDesignKey).GetOr("default")), track.name)]
                         && prefs == if setResult.Ok? then old(prefs)[LastAlbumArtUrlKey := url] else old(prefs))
                   && (!fires ==> log == old(log) && prefs == old(prefs))
    {
      var accessToken := GetString(prefs, AccessTokenKey);
      if accessToken.None? {
        return Failure;
      }
      var selectedDesign := GetString(prefs, SelectedDesignKey).GetOr("default");
      match response {
        case Failed(_) =>
          return Failure;
        case Ok(playing) =>
          if playing.item.Some? {
            var track := playing.item.value;
            var albumArtUrl := FirstImageUrl(track);
            var lastAlbumArtUrl := GetString(prefs, LastAlbumArtUrlKey);
            if albumArtUrl.Some? && albumArtUrl != lastAlbumArtUrl {
              log := log + [SetDesignedWallpaper(albumArtUrl.value, Some(selectedDesign), track.name)];
              if setResult.Ok? {
                prefs := prefs[LastAlbumArtUrlKey := albumArtUrl.value];
              }
            }
          }
          return Success;
      }
    }
  }
}
