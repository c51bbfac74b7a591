/** The voice recorder (project/audio.js, `AudioManager`): the `isRecording` guard, chunk
    accumulation, the idempotent stop, the one-second minimum at stop time, MIME selection by
    priority, decryption of a received recording, and cleanup. `getUserMedia`, the
    `MediaRecorder` constructor, `MediaRecorder.isTypeSupported` and `Date.now()` are inputs. */
module Audio {
  import opened Common
  import opened JsValue
  import Crypto
  import Base64

  /** The shortest recording `handleRecordingStopped` keeps, in milliseconds. */
  const MinimumDuration: int := 1000

  /** `getSupportedMimeType`'s candidates, most preferred first, and its fallback. */
  const PreferredTypes: seq<string> := [
    "audio/webm;codecs=opus", "audio/webm", "audio/ogg;codecs=opus", "audio/ogg", "audio/mp4", "audio/mpeg"]
  const FallbackType: string := "audio/webm"

  const TooShortMessage: string := "Enregistrement trop court (minimum 1 seconde)"
  const DefaultMicrophoneMessage: string := "Erreur d'accès au microphone"

  /** A media stream handed out by `getUserMedia`. */
  type StreamId = nat

  /** A `DOMException` thrown by a media API, known by its `name`. */
  datatype MediaError = MediaError(name: string)

  /** The live `MediaRecorder`: the MIME type it records and whether its state is not
      'inactive'. */
  datatype Recorder = Recorder(mimeType: string, active: bool)

  /** The blob handed to `onRecordingComplete`: the chunks, the type, and `duration` in seconds. */
  datatype AudioBlob = AudioBlob(chunks: seq<Bytes>, mimeType: string, duration: real)

  /** The notifications the recorder shows. */
  datatype AudioNotice = TooShort | MicrophoneError(message: string)

  /** The first candidate the browser supports, else the fallback. */
  function PreferredMimeType(supported: set<string>): string
  {
    FirstSupported(PreferredTypes, supported)
  }

  function FirstSupported(candidates: seq<string>, supported: set<string>): (t: string)
    ensures t == FallbackType || t in candidates
  {
    if candidates == [] then FallbackType
    else if candidates[0] in supported then candidates[0]
    else FirstSupported(candidates[1..], supported)
  }

  /** `getSupportedMimeType` picks the first supported candidate in priority order, and the
      fallback only when none is supported. */
  lemma {:induction false} FirstSupportedSpec(candidates: seq<string>, supported: set<string>)
    ensures var t := FirstSupported(candidates, supported);
      (exists i :: 0 <= i < |candidates| && t == candidates[i] && t in supported
         && forall j :: 0 <= j < i ==> candidates[j] !in supported)
      || (t == FallbackType && forall j :: 0 <= j < |candidates| ==> candidates[j] !in supported)
    decreases |candidates|
  {
    if candidates != [] && candidates[0] !in supported {
      FirstSupportedSpec(candidates[1..], supported);
      var t := FirstSupported(candidates, supported);
      if exists i :: 0 <= i < |candidates| - 1 && t == candidates[1..][i] && t in supported
           && forall j :: 0 <= j < i ==> candidates[1..][j] !in supported {
        var i :| 0 <= i < |candidates| - 1 && t == candidates[1..][i] && t in supported
           && forall j :: 0 <= j < i ==> candidates[1..][j] !in supported;
        assert forall j :: 0 <= j < i + 1 ==> candidates[j] !in supported by {
          forall j | 0 <= j < i + 1 ensures candidates[j] !in supported {
            if j > 0 { assert candidates[j] == candidates[1..][j - 1]; }
          }
        }
      } else {
        assert forall j :: 0 <= j < |candidates| ==> candidates[j] !in supported by {
          forall j | 0 <= j < |candidates| ensures candidates[j] !in supported {
            if j > 0 { assert candidates[j] == candidates[1..][j - 1]; }
          }
        }
      }
    }
  }

  /** `handleMicrophoneError`'s message for an error name. */
  function MicrophoneErrorMessage(name: string): string
  {
    if name == "NotAllowedError" then "Accès au microphone refusé. Veuillez autoriser l'accès dans les paramètres."
    else if name == "NotFoundError" then "Aucun microphone détecté."
    else if name == "NotSupportedError" then "Enregistrement audio non supporté par ce navigateur."
    else if name == "SecurityError" then "Accès au microphone bloqué pour des raisons de sécurité."
    else DefaultMicrophoneMessage
  }

  /** Each of the four recognised error names has its own message; every other name gets the
      generic one. */
  lemma MicrophoneErrorMessages(name: string)
    ensures MicrophoneErrorMessage(name) == DefaultMicrophoneMessage
      <==> name !in {"NotAllowedError", "NotFoundError", "NotSupportedError", "SecurityError"}
  {
    var m := MicrophoneErrorMessage(name);
    if name in {"NotAllowedError", "NotFoundError", "NotSupportedError", "SecurityError"} {
      assert m[0] != DefaultMicrophoneMessage[0] || m[1] != DefaultMicrophoneMessage[1] || |m| != |DefaultMicrophoneMessage|;
    }
  }

  /** What `createDecryptedAudioElement` plays: nothing without a key, for data that is not a
      non-empty string, when `atob` throws or when the cipher rejects the data; otherwise the
      plaintext as a blob of the preferred type. */
  function ReceivedAudio(p: Crypto.Primitives, key: Option<Crypto.Key>, encryptedData: Value, supported: set<string>): Option<Blob>
  {
    if key.None? || !(encryptedData.Str? && encryptedData.s != "") then None
    else match Crypto.Deserialize(encryptedData.s)
      case None => None
      case Some(e) =>
        match p.open(key.value, e.iv, e.encrypted)
        case None => None
        case Some(audio) => Some(Blob(audio, PreferredMimeType(supported)))
  }

  /** A voice message sent by a peer holding the same key plays back as the recorded bytes. */
  lemma ReceivedAudioRoundTrip(p: Crypto.Primitives, key: Crypto.Key, iv: Crypto.Iv, audio: Bytes, supported: set<string>)
    requires Crypto.Sound(p)
    ensures ReceivedAudio(p, Some(key), Str(Crypto.Serialize(p.seal(key, iv, audio), iv)), supported)
      == Some(Blob(audio, PreferredMimeType(supported)))
  {
    var c := p.seal(key, iv, audio);
    Crypto.DeserializeSerialize(c, iv);
    Base64.EncodeAlphabet(iv + c);
  }

  class AudioManager {
    var mediaRecorder: Option<Recorder>
    var audioStream: Option<StreamId>
    var isRecording: bool
    var recordedChunks: seq<Bytes>
    var recordingStartTime: int
    /** Whether `onRecordingComplete` is set. */
    var hasCompletionCallback: bool
    /** Blobs handed to `onRecordingComplete`, oldest first. */
    var completed: seq<AudioBlob>
    /** Streams whose tracks were stopped, oldest first. */
    var released: seq<StreamId>
    /** Notifications shown, oldest first. */
    var notices: seq<AudioNotice>

    /** A new manager: no recorder, no stream, not recording, no chunks, start time 0. */
    constructor ()
      ensures mediaRecorder.None? && audioStream.None? && !isRecording && recordedChunks == []
      ensures recordingStartTime == 0 && !hasCompletionCallback
      ensures completed == [] && released == [] && notices == []
    {
      mediaRecorder, audioStream, isRecording := None, None, false;
      recordedChunks, recordingStartTime := [], 0;
      hasCompletionCallback := false;
      completed, released, notices := [], [], [];
    }

    /** `setRecordingCompleteCallback`. */
    method SetRecordingCompleteCallback()
      modifies this`hasCompletionCallback
      ensures hasCompletionCallback
    {
      hasCompletionCallback := true;
    }

    /** `startRecording` at time `now`. `media` is what `getUserMedia` yields,
        `constructorError` whether `new MediaRecorder(...)` throws and `startError` whether
        `start(1000)` then throws. While recording it refuses and changes nothing. A media
        failure only shows its message. A constructor failure keeps the acquired stream. A
        failure in `start` also keeps the new, inactive recorder, the emptied chunks and the
        start time, which were set before the call. Otherwise a fresh recording of the
        preferred type starts at `now`. */
    method StartRecording(media: Result<StreamId, MediaError>, constructorError: Option<MediaError>,
                          startError: Option<MediaError>, supported: set<string>, now: int) returns (started: bool)
      modifies this`audioStream, this`mediaRecorder, this`recordedChunks, this`recordingStartTime,
        this`isRecording, this`notices
      ensures old(isRecording) ==> !started
      ensures old(isRecording) ==> (audioStream == old(audioStream) && mediaRecorder == old(mediaRecorder)
        && recordedChunks == old(recordedChunks) && recordingStartTime == old(recordingStartTime)
        && isRecording && notices == old(notices))
      ensures !old(isRecording) && media.Failure? ==> (!started && !isRecording
        && audioStream == old(audioStream) && mediaRecorder == old(mediaRecorder)
        && recordedChunks == old(recordedChunks) && recordingStartTime == old(recordingStartTime)
        && notices == old(notices) + [MicrophoneError(MicrophoneErrorMessage(media.error.name))])
      ensures !old(isRecording) && media.Success? && constructorError.Some? ==> (!started && !isRecording
        && audioStream == Some(media.value) && mediaRecorder == old(mediaRecorder)
        && recordedChunks == old(recordedChunks) && recordingStartTime == old(recordingStartTime)
        && notices == old(notices) + [MicrophoneError(MicrophoneErrorMessage(constructorError.value.name))])
      ensures !old(isRecording) && media.Success? && constructorError.None? && startError.Some? ==> (!started
        && !isRecording && audioStream == Some(media.value)
        && mediaRecorder == Some(Recorder(PreferredMimeType(supported), false))
        && recordedChunks == [] && recordingStartTime == now
        && notices == old(notices) + [MicrophoneError(MicrophoneErrorMessage(startError.value.name))])
      ensures !old(isRecording) && media.Success? && constructorError.None? && startError.None? ==> (started
        && isRecording && audioStream == Some(media.value)
        && mediaRecorder == Some(Recorder(PreferredMimeType(supported), true))
        && recordedChunks == [] && recordingStartTime == now && notices == old(notices))
    {
      if isRecording {
        return false;
      }
      if media.Failure? {
        HandleMicrophoneError(media.error);
        return false;
      }
      audioStream := Some(media.value);
      var mimeType := GetSupportedMimeType(supported);
      if constructorError.Some? {
        HandleMicrophoneError(constructorError.value);
        return false;
      }
      mediaRecorder := Some(Recorder(mimeType, false));
      recordedChunks := [];
      recordingStartTime := now;
      if startError.Some? {
        HandleMicrophoneError(startError.value);
        return false;
      }
      mediaRecorder := Some(Recorder(mimeType, true));
      isRecording := true;
      return true;
    }

    /** `ondataavailable`: a non-empty chunk joins the end of the recording; an empty one is
        ignored. */
    method DataAvailable(chunk: Bytes)
      modifies this`recordedChunks
      ensures recordedChunks == old(recordedChunks) + (if |chunk| > 0 then [chunk] else [])
    {
      if |chunk| > 0 {
        recordedChunks := recordedChunks + [chunk];
      }
    }

    /** `stopRecording`: nothing when not recording; otherwise recording ends, an active
        recorder is asked to stop (its `onstop` arrives later as `HandleRecordingStopped`) and
        the stream is released. */
    method StopRecording()
      modifies this`isRecording, this`mediaRecorder, this`audioStream, this`released
      ensures !old(isRecording) ==> (isRecording == old(isRecording) && mediaRecorder == old(mediaRecorder)
        && audioStream == old(audioStream) && released == old(released))
      ensures old(isRecording) ==> !isRecording && audioStream.None?
      ensures old(isRecording) ==> mediaRecorder == (if old(mediaRecorder).Some? then Some(old(mediaRecorder).value.(active := false)) else None)
      ensures old(isRecording) ==> released == old(released) + (if old(audioStream).Some? then [old(audioStream).value] else [])
    {
      if !isRecording {
        return;
      }
      isRecording := false;
      if mediaRecorder.Some? && mediaRecorder.value.active {
        mediaRecorder := Some(mediaRecorder.value.(active := false));
      }
      if audioStream.Some? {
        released := released + [audioStream.value];
        audioStream := None;
      }
    }

    /** The recorder's `onerror`: stop as `stopRecording` does. */
    method RecorderFailed()
      modifies this`isRecording, this`mediaRecorder, this`audioStream, this`released
      ensures !old(isRecording) ==> (isRecording == old(isRecording) && mediaRecorder == old(mediaRecorder)
        && audioStream == old(audioStream) && released == old(released))
      ensures old(isRecording) ==> !isRecording && audioStream.None?
      ensures old(isRecording) ==> mediaRecorder == (if old(mediaRecorder).Some? then Some(old(mediaRecorder).value.(active := false)) else None)
      ensures old(isRecording) ==> released == old(released) + (if old(audioStream).Some? then [old(audioStream).value] else [])
    {
      StopRecording();
    }

    /** `handleRecordingStopped` (the recorder's `onstop`) at time `now`: nothing without
        chunks; a recording under one second only shows a notice and keeps its chunks; otherwise
        the blob goes to the callback once, with its duration in seconds, and the chunks and the
        recorder are cleared. */
    method HandleRecordingStopped(now: int, supported: set<string>)
      modifies this`recordedChunks, this`mediaRecorder, this`completed, this`notices
      ensures old(recordedChunks) == [] ==> (recordedChunks == [] && mediaRecorder == old(mediaRecorder)
        && completed == old(completed) && notices == old(notices))
      ensures old(recordedChunks) != [] && now - recordingStartTime < MinimumDuration ==>
        recordedChunks == old(recordedChunks) && mediaRecorder == old(mediaRecorder)
        && completed == old(completed) && notices == old(notices) + [TooShort]
      ensures old(recordedChunks) != [] && now - recordingStartTime >= MinimumDuration ==>
        recordedChunks == [] && mediaRecorder.None? && notices == old(notices)
        && completed == old(completed) + (if hasCompletionCallback then
             [AudioBlob(old(recordedChunks), PreferredMimeType(supported), (now - recordingStartTime) as real / 1000.0)]
           else [])
    {
      if |recordedChunks| == 0 {
        return;
      }
      var recordingDuration := now - recordingStartTime;
      if recordingDuration < MinimumDuration {
        notices := notices + [TooShort];
        return;
      }
      var mimeType := GetSupportedMimeType(supported);
      var blob := AudioBlob(recordedChunks, mimeType, recordingDuration as real / 1000.0);
      if hasCompletionCallback {
        completed := completed + [blob];
      }
      recordedChunks := [];
      mediaRecorder := None;
    }

    /** `getSupportedMimeType`: the first candidate `MediaRecorder.isTypeSupported` accepts. */
    method GetSupportedMimeType(supported: set<string>) returns (t: string)
      ensures t == PreferredMimeType(supported)
    {
      var i := 0;
      while i < |PreferredTypes|
        invariant 0 <= i <= |PreferredTypes|
        invariant FirstSupported(PreferredTypes[i..], supported) == PreferredMimeType(supported)
      {
        assert PreferredTypes[i..][1..] == PreferredTypes[i + 1..];
        if PreferredTypes[i] in supported {
          return PreferredTypes[i];
        }
        i := i + 1;
      }
      return FallbackType;
    }

    /** `createDecryptedAudioElement`: the playable blob, or null. */
    method CreateDecryptedAudioElement(encryptedData: Value, crypto: Crypto.CryptoManager, supported: set<string>)
      returns (r: Option<Blob>)
      requires crypto.Valid()
      ensures r == ReceivedAudio(crypto.primitives, crypto.key, encryptedData, supported)
      ensures !crypto.keyGenerated ==> r.None?
      ensures !(encryptedData.Str? && encryptedData.s != "") ==> r.None?
    {
      if !crypto.keyGenerated {
        return None;
      }
      if !(encryptedData.Str? && encryptedData.s != "") {
        return None;
      }
      var envelope := Crypto.Deserialize(encryptedData.s);
      if envelope.None? {
        return None;
      }
      var decrypted := crypto.primitives.open(crypto.key.value, envelope.value.iv, envelope.value.encrypted);
      if decrypted.None? {
        return None;
      }
      var mimeType := GetSupportedMimeType(supported);
      return Some(Blob(decrypted.value, mimeType));
    }

    /** `handleMicrophoneError`: the message for the error's name. */
    method HandleMicrophoneError(error: MediaError)
      modifies this`notices
      ensures notices == old(notices) + [MicrophoneError(MicrophoneErrorMessage(error.name))]
    {
      notices := notices + [MicrophoneError(MicrophoneErrorMessage(error.name))];
    }

    /** `cleanup`: stops a recording in progress, releases the stream, and drops the recorder and
        the chunks, so a later `onstop` emits nothing. */
    method Cleanup()
      modifies this`isRecording, this`mediaRecorder, this`audioStream, this`released, this`recordedChunks
      ensures !isRecording && audioStream.None? && mediaRecorder.None? && recordedChunks == []
      ensures released == old(released) + (if old(audioStream).Some? then [old(audioStream).value] else [])
    {
      if isRecording {
        StopRecording();
      }
      if audioStream.Some? {
        released := released + [audioStream.value];
        audioStream := None;
      }
      mediaRecorder := None;
      recordedChunks := [];
    }
  }
}
