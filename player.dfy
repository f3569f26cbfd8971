/** The voice-message player of AudioMessage.js: fetching the audio file
    into an object URL, the loading, loaded and error flags that the audio
    element's events drive, retrying, and the play, pause and stop controls.
    Playback positions are whole milliseconds; the fetch and the element's
    events are parameters and calls. */
module Player {

  import opened Outcomes
  import opened FileUrls
  import opened MediaTime

  /** A fraction of a hundred, `num / den * 100`. */
  datatype Ratio = Ratio(num: int, den: int)

  /** The progress bar's value, `currentTime / duration * 100` when the
      duration is positive and 0 otherwise; it lies between 0 and 100
      while the position is within the duration. */
  function Progress(currentMs: nat, durationSec: int): (r: Ratio)
    ensures r.den > 0
    ensures durationSec <= 0 ==> r.num == 0
    ensures durationSec > 0 ==> r.num * durationSec * 1000 == currentMs * 100 * r.den
    ensures currentMs <= durationSec * 1000 ==> 0 <= r.num <= 100 * r.den
  {
    if durationSec > 0 then Ratio(currentMs * 100, durationSec * 1000) else Ratio(0, 1)
  }

  class AudioPlayer {
    /** The message's stored audio path and its length in seconds. */
    const audioUrl: Option<string>
    const durationSec: int
    var isPlaying: bool
    var currentTimeMs: nat
    var isLoaded: bool
    var hasError: bool
    var isLoading: bool
    /** The object URL of the fetched audio (`audioBlob`). */
    var objectUrl: Option<string>
    /** The URLs fetched, oldest first. */
    var fetches: seq<string>

    constructor (audioUrl: Option<string>, durationSec: int)
      ensures this.audioUrl == audioUrl && this.durationSec == durationSec
      ensures !isPlaying && currentTimeMs == 0 && !isLoaded && !hasError && isLoading
      ensures objectUrl == None && fetches == []
    {
      this.audioUrl, this.durationSec := audioUrl, durationSec;
      isPlaying, currentTimeMs := false, 0;
      isLoaded, hasError, isLoading := false, false, true;
      objectUrl, fetches := None, [];
    }

    /** The `<audio>` element is rendered only outside the error view. */
    predicate HasAudioElement()
      reads this
    {
      !hasError
    }

    /** The play button is enabled once loaded and not loading. */
    predicate PlayEnabled()
      reads this
    {
      isLoaded && !isLoading
    }

    /** The stop button also needs a position away from the start. */
    predicate StopEnabled()
      reads this
    {
      isLoaded && currentTimeMs != 0 && !isLoading
    }

    /** `loadAudio`: the file is fetched from its resolved URL; success keeps
        the object URL and leaves the player loaded, failure leaves it
        errored and not loaded; it is not loading afterwards either way. */
    method LoadAudio(apiUrl: string, response: Outcome<string>)
      modifies this
      ensures fetches == old(fetches) + [GetFileUrl(apiUrl, audioUrl)]
      ensures !isLoading
      ensures response.Ok? ==> objectUrl == Some(response.value) && isLoaded && !hasError
      ensures response.Err? ==> objectUrl == old(objectUrl) && !isLoaded && hasError
      ensures response.Ok? <==> PlayEnabled()
      ensures response.Err? ==> !StopEnabled()
      ensures isPlaying == old(isPlaying) && currentTimeMs == old(currentTimeMs)
    {
      isLoading := true;
      hasError := false;
      fetches := fetches + [GetFileUrl(apiUrl, audioUrl)];
      if response.Ok? {
        objectUrl := Some(response.value);
        isLoaded := true;
        isLoading := false;
      } else {
        isLoading := false;
        hasError := true;
        isLoaded := false;
      }
    }

    /** `handlePlay`: playback starts only with the element and an object
        URL; a rejected `play()` then raises the error. */
    method HandlePlay(playSucceeds: bool)
      modifies this
      ensures old(HasAudioElement()) && old(objectUrl).Some? ==> isPlaying && hasError == !playSucceeds
      ensures !(old(HasAudioElement()) && old(objectUrl).Some?) ==> isPlaying == old(isPlaying) && hasError == old(hasError)
      ensures currentTimeMs == old(currentTimeMs) && isLoaded == old(isLoaded) && isLoading == old(isLoading)
      ensures objectUrl == old(objectUrl) && fetches == old(fetches)
    {
      if HasAudioElement() && objectUrl.Some? {
        isPlaying := true;
        if !playSucceeds {
          hasError := true;
        }
      }
    }

    /** `handlePause` */
    method HandlePause()
      modifies this
      ensures isPlaying == (if old(HasAudioElement()) then false else old(isPlaying))
      ensures currentTimeMs == old(currentTimeMs) && isLoaded == old(isLoaded) && hasError == old(hasError)
      ensures isLoading == old(isLoading) && objectUrl == old(objectUrl) && fetches == old(fetches)
    {
      if HasAudioElement() {
        isPlaying := false;
      }
    }

    /** `handleStop`: with the element, playback stops at the start. */
    method HandleStop()
      modifies this
      ensures old(HasAudioElement()) ==> !isPlaying && currentTimeMs == 0 && !StopEnabled()
      ensures !old(HasAudioElement()) ==> isPlaying == old(isPlaying) && currentTimeMs == old(currentTimeMs)
      ensures isLoaded == old(isLoaded) && hasError == old(hasError)
      ensures isLoading == old(isLoading) && objectUrl == old(objectUrl) && fetches == old(fetches)
    {
      if HasAudioElement() {
        isPlaying := false;
        currentTimeMs := 0;
      }
    }

    /** `handleTimeUpdate` */
    method HandleTimeUpdate(positionMs: nat)
      modifies this
      ensures currentTimeMs == (if old(HasAudioElement()) then positionMs else old(currentTimeMs))
      ensures isPlaying == old(isPlaying) && isLoaded == old(isLoaded) && hasError == old(hasError)
      ensures isLoading == old(isLoading) && objectUrl == old(objectUrl) && fetches == old(fetches)
    {
      if HasAudioElement() {
        currentTimeMs := positionMs;
      }
    }

    /** `handleLoadedMetadata`: loaded, not loading, no error. */
    method HandleLoadedMetadata()
      modifies this
      ensures isLoaded && !isLoading && !hasError
      ensures isPlaying == old(isPlaying) && currentTimeMs == old(currentTimeMs)
      ensures objectUrl == old(objectUrl) && fetches == old(fetches)
    {
      isLoaded := true;
      isLoading := false;
      hasError := false;
    }

    /** `handleCanPlay`: not loading, no error. */
    method HandleCanPlay()
      modifies this
      ensures !isLoading && !hasError
      ensures isPlaying == old(isPlaying) && currentTimeMs == old(currentTimeMs) && isLoaded == old(isLoaded)
      ensures objectUrl == old(objectUrl) && fetches == old(fetches)
    {
      isLoading := false;
      hasError := false;
    }

    /** `handleEnded`: playback stops at the start. */
    method HandleEnded()
      modifies this
      ensures !isPlaying && currentTimeMs == 0 && !StopEnabled()
      ensures isLoaded == old(isLoaded) && hasError == old(hasError) && isLoading == old(isLoading)
      ensures objectUrl == old(objectUrl) && fetches == old(fetches)
    {
      isPlaying := false;
      currentTimeMs := 0;
    }

    /** `handleError`: not loading, errored, not loaded. */
    method HandleError()
      modifies this
      ensures !isLoading && hasError && !isLoaded
      ensures isPlaying == old(isPlaying) && currentTimeMs == old(currentTimeMs)
      ensures objectUrl == old(objectUrl) && fetches == old(fetches)
    {
      isLoading := false;
      hasError := true;
      isLoaded := false;
    }

    /** `handleRetry`: the error is cleared, the player goes back to loading
        and not loaded, and the file is fetched again. */
    method ClearForRetry()
      modifies this
      ensures !hasError && isLoading && !isLoaded
      ensures isPlaying == old(isPlaying) && currentTimeMs == old(currentTimeMs)
      ensures objectUrl == old(objectUrl) && fetches == old(fetches)
    {
      hasError := false;
      isLoading := true;
      isLoaded := false;
    }

    method HandleRetry(apiUrl: string, response: Outcome<string>)
      modifies this
      ensures fetches == old(fetches) + [GetFileUrl(apiUrl, audioUrl)]
      ensures !isLoading
      ensures response.Ok? ==> objectUrl == Some(response.value) && isLoaded && !hasError
      ensures response.Err? ==> objectUrl == old(objectUrl) && !isLoaded && hasError
      ensures response.Ok? <==> PlayEnabled()
      ensures response.Err? ==> !StopEnabled()
      ensures isPlaying == old(isPlaying) && currentTimeMs == old(currentTimeMs)
    {
      ClearForRetry();
      LoadAudio(apiUrl, response);
    }

    /** The clock text, `formatTime(currentTime)`. */
    function PositionText(): (r: string)
      reads this
      ensures ClockText(r) && ParseTime(r) == currentTimeMs / 1000
    {
      FormatTimeParses(currentTimeMs / 1000);
      FormatTime(currentTimeMs / 1000)
    }
  }
}
