/** The voice-message recorder of AudioRecorder.js: recording (the chunks
    the media recorder delivers and the blob made of them when it stops),
    listening to the take, deleting it, and uploading and sending it. Times
    are whole milliseconds; the microphone, the media recorder, the clock and
    the upload are parameters. */
module Recorder {

  import opened Outcomes
  import opened MediaTime

  /** One `dataavailable` payload. */
  type Chunk = string

  /** The upload's HTTP response: its status, and the stored file's URL. */
  datatype UploadResponse = UploadResponse(ok: bool, status: nat, statusText: string, audioUrl: string)

  const MicrophoneError := "No se pudo acceder al micrófono. Verifica los permisos."
  const SendErrorPrefix := "Error al enviar el audio: "
  const NoTokenMessage := "No authentication token found"

  const UploadErrorPrefix := "Error uploading audio: "

  /** The failure message of an upload the server refused: the prefix, the
      status in decimal, a space and the status text. */
  function UploadRefused(response: UploadResponse): (s: string)
    ensures |s| >= |UploadErrorPrefix| + 2 + |response.statusText|
    ensures s[..|UploadErrorPrefix|] == UploadErrorPrefix
    ensures s[|s| - |response.statusText| - 1..] == " " + response.statusText
    ensures var digits := s[|UploadErrorPrefix|..|s| - |response.statusText| - 1];
            AllDigits(digits) && DigitsValue(digits) == response.status
  {
    var digits := NatToString(response.status);
    NatToStringValue(response.status);
    var s := UploadErrorPrefix + digits + " " + response.statusText;
    assert s[|UploadErrorPrefix|..|s| - |response.statusText| - 1] == digits;
    assert s[|s| - |response.statusText| - 1..] == " " + response.statusText;
    s
  }

  class AudioRecorder {
    var isRecording: bool
    var isPlaying: bool
    /** `mediaRecorderRef.current !== null` */
    var hasRecorder: bool
    /** `audioChunksRef.current` */
    var chunks: seq<Chunk>
    /** The recorded blob, as the chunks it was made of. */
    var blob: Option<seq<Chunk>>
    var audioUrl: Option<string>
    var durationMs: nat
    var currentTimeMs: nat
    var error: Option<string>
    var isUploading: bool
    /** Whether the 100 ms duration interval is running. */
    var ticking: bool
    /** The `onSendAudio(url, seconds)` calls made, oldest first. */
    var sent: seq<(string, nat)>

    constructor ()
      ensures !isRecording && !isPlaying && !hasRecorder && chunks == [] && blob == None && audioUrl == None
      ensures durationMs == 0 && currentTimeMs == 0 && error == None && !isUploading && !ticking && sent == []
    {
      isRecording, isPlaying, hasRecorder, chunks := false, false, false, [];
      blob, audioUrl, durationMs, currentTimeMs := None, None, 0, 0;
      error, isUploading, ticking, sent := None, false, false, [];
    }

    /** The `<audio>` element exists only while a take has a URL and no
        error hides the recorder behind its alert. */
    predicate HasAudioElement()
      reads this
    {
      error.None? && audioUrl.Some?
    }

    /** `startRecording`: without microphone access only the error is set;
        with it a fresh recorder starts with no chunks and the clock runs. */
    method StartRecording(microphone: bool)
      modifies this
      ensures !microphone ==>
                error == Some(MicrophoneError) && isRecording == old(isRecording) && hasRecorder == old(hasRecorder) &&
                chunks == old(chunks) && ticking == old(ticking)
      ensures microphone ==> error == None && isRecording && hasRecorder && chunks == [] && ticking
      ensures isPlaying == old(isPlaying) && blob == old(blob) && audioUrl == old(audioUrl)
      ensures durationMs == old(durationMs) && currentTimeMs == old(currentTimeMs)
      ensures isUploading == old(isUploading) && sent == old(sent)
    {
      error := None;
      if !microphone {
        error := Some(MicrophoneError);
        return;
      }
      hasRecorder := true;
      chunks := [];
      isRecording := true;
      ticking := true;
    }

    /** The interval: the duration follows the clock while it runs. */
    method Tick(elapsedMs: nat)
      modifies this
      ensures durationMs == (if old(ticking) then elapsedMs else old(durationMs))
      ensures isRecording == old(isRecording) && isPlaying == old(isPlaying) && hasRecorder == old(hasRecorder)
      ensures chunks == old(chunks) && blob == old(blob) && audioUrl == old(audioUrl)
      ensures currentTimeMs == old(currentTimeMs) && error == old(error)
      ensures isUploading == old(isUploading) && ticking == old(ticking) && sent == old(sent)
    {
      if ticking {
        durationMs := elapsedMs;
      }
    }

    /** `ondataavailable`: the chunk is appended. */
    method OnDataAvailable(c: Chunk)
      modifies this
      ensures chunks == old(chunks) + [c]
      ensures isRecording == old(isRecording) && isPlaying == old(isPlaying) && hasRecorder == old(hasRecorder)
      ensures blob == old(blob) && audioUrl == old(audioUrl) && durationMs == old(durationMs)
      ensures currentTimeMs == old(currentTimeMs) && error == old(error)
      ensures isUploading == old(isUploading) && ticking == old(ticking) && sent == old(sent)
    {
      chunks := chunks + [c];
    }

    /** `onstop`: the blob is made of every chunk delivered, in order, and
        gets its object URL. */
    method OnRecorderStop(url: string)
      modifies this
      ensures blob == Some(old(chunks)) && audioUrl == Some(url)
      ensures isRecording == old(isRecording) && isPlaying == old(isPlaying) && hasRecorder == old(hasRecorder)
      ensures chunks == old(chunks) && durationMs == old(durationMs)
      ensures currentTimeMs == old(currentTimeMs) && error == old(error)
      ensures isUploading == old(isUploading) && ticking == old(ticking) && sent == old(sent)
    {
      blob := Some(chunks);
      audioUrl := Some(url);
    }

    /** `stopRecording`: only a running recorder is stopped, and the clock
        with it. */
    method StopRecording()
      modifies this
      ensures old(hasRecorder) && old(isRecording) ==> !isRecording && !ticking
      ensures !(old(hasRecorder) && old(isRecording)) ==> isRecording == old(isRecording) && ticking == old(ticking)
      ensures isPlaying == old(isPlaying) && hasRecorder == old(hasRecorder)
      ensures chunks == old(chunks) && blob == old(blob) && audioUrl == old(audioUrl) && durationMs == old(durationMs)
      ensures currentTimeMs == old(currentTimeMs) && error == old(error)
      ensures isUploading == old(isUploading) && sent == old(sent)
    {
      if hasRecorder && isRecording {
        isRecording := false;
        ticking := false;
      }
    }

    /** `playAudio` and `pauseAudio`: only with the element present. */
    method SetPlaying(play: bool)
      modifies this
      ensures isPlaying == (if old(HasAudioElement()) then play else old(isPlaying))
      ensures isRecording == old(isRecording) && hasRecorder == old(hasRecorder)
      ensures chunks == old(chunks) && blob == old(blob) && audioUrl == old(audioUrl) && durationMs == old(durationMs)
      ensures currentTimeMs == old(currentTimeMs) && error == old(error)
      ensures isUploading == old(isUploading) && ticking == old(ticking) && sent == old(sent)
    {
      if HasAudioElement() {
        isPlaying := play;
      }
    }

    /** `handleTimeUpdate`: the position follows the element's. */
    method HandleTimeUpdate(positionMs: nat)
      modifies this
      ensures currentTimeMs == (if old(HasAudioElement()) then positionMs else old(currentTimeMs))
      ensures isRecording == old(isRecording) && isPlaying == old(isPlaying) && hasRecorder == old(hasRecorder)
      ensures chunks == old(chunks) && blob == old(blob) && audioUrl == old(audioUrl) && durationMs == old(durationMs)
      ensures error == old(error) && isUploading == old(isUploading) && ticking == old(ticking) && sent == old(sent)
    {
      if HasAudioElement() {
        currentTimeMs := positionMs;
      }
    }

    /** `handleAudioEnded`: playback stops at the start. */
    method HandleAudioEnded()
      modifies this
      ensures !isPlaying && currentTimeMs == 0
      ensures isRecording == old(isRecording) && hasRecorder == old(hasRecorder)
      ensures chunks == old(chunks) && blob == old(blob) && audioUrl == old(audioUrl) && durationMs == old(durationMs)
      ensures error == old(error) && isUploading == old(isUploading) && ticking == old(ticking) && sent == old(sent)
    {
      isPlaying := false;
      currentTimeMs := 0;
    }

    /** `deleteRecording`: the take, its URL, both clocks and playback are
        cleared. */
    method DeleteRecording()
      modifies this
      ensures blob == None && audioUrl == None && durationMs == 0 && currentTimeMs == 0 && !isPlaying
      ensures isRecording == old(isRecording) && hasRecorder == old(hasRecorder) && chunks == old(chunks)
      ensures error == old(error) && isUploading == old(isUploading) && ticking == old(ticking) && sent == old(sent)
    {
      blob, audioUrl := None, None;
      durationMs, currentTimeMs := 0, 0;
      isPlaying := false;
    }

    /** `sendAudio`: nothing happens without a take. Otherwise the take is
        uploaded (a missing token, a transport failure or a refused upload
        ends it with an error), the stored URL is sent with the length
        rounded to whole seconds, and the take is deleted; a failure of the
        send itself also ends with an error. The upload flag is down
        afterwards either way. */
    method SendAudio(token: Option<string>, upload: Outcome<UploadResponse>, delivery: Outcome<()>)
      modifies this
      ensures old(blob).None? ==>
                error == old(error) && sent == old(sent) && blob == old(blob) && isUploading == old(isUploading) &&
                durationMs == old(durationMs) && currentTimeMs == old(currentTimeMs) && isPlaying == old(isPlaying) &&
                audioUrl == old(audioUrl)
      ensures old(blob).Some? ==> !isUploading
      ensures old(blob).Some? && (token.None? || token.value == "") ==>
                error == Some(SendErrorPrefix + NoTokenMessage) && sent == old(sent) && blob == old(blob)
      ensures old(blob).Some? && token.Some? && token.value != "" && upload.Err? ==>
                error == Some(SendErrorPrefix + upload.failure.message) && sent == old(sent) && blob == old(blob)
      ensures old(blob).Some? && token.Some? && token.value != "" && upload.Ok? && !upload.value.ok ==>
                error == Some(SendErrorPrefix + UploadRefused(upload.value)) && sent == old(sent) && blob == old(blob)
      ensures old(blob).Some? && token.Some? && token.value != "" && upload.Ok? && upload.value.ok ==>
                sent == old(sent) + [(upload.value.audioUrl, RoundToSeconds(old(durationMs)))] &&
                (delivery.Ok? ==> error == None && blob == None && audioUrl == None && durationMs == 0 && currentTimeMs == 0 && !isPlaying) &&
                (delivery.Err? ==> error == Some(SendErrorPrefix + delivery.failure.message) && blob == old(blob))
      ensures old(blob).Some? && !(token.Some? && token.value != "" && upload.Ok? && upload.value.ok && delivery.Ok?) ==>
                audioUrl == old(audioUrl) && durationMs == old(durationMs) && currentTimeMs == old(currentTimeMs) &&
                isPlaying == old(isPlaying)
      ensures isRecording == old(isRecording) && hasRecorder == old(hasRecorder) && chunks == old(chunks)
      ensures ticking == old(ticking)
    {
      if blob.None? {
        return;
      }
      isUploading := true;
      error := None;
      if token.None? || token.value == "" {
        error := Some(SendErrorPrefix + NoTokenMessage);
      } else if upload.Err? {
        error := Some(SendErrorPrefix + upload.failure.message);
      } else if !upload.value.ok {
        error := Some(SendErrorPrefix + UploadRefused(upload.value));
      } else {
        sent := sent + [(upload.value.audioUrl, RoundToSeconds(durationMs))];
        if delivery.Ok? {
          DeleteRecording();
        } else {
          error := Some(SendErrorPrefix + delivery.failure.message);
        }
      }
      isUploading := false;
    }

    /** The recording clock, `formatTime(duration)`. */
    function DurationText(): (r: string)
      reads this
      ensures ClockText(r) && ParseTime(r) == durationMs / 1000
    {
      FormatTimeParses(durationMs / 1000);
      FormatTime(durationMs / 1000)
    }
  }
}
