/** The client's WebSocket channel (project/websocket.js, `WebSocketManager`): the connection
    and reconnection state machine with bounded exponential backoff, the outbound queue, the
    callback registry and the dispatch of inbound messages by their `type` tag. Transport events
    (open, message, close, error, the reconnect timer) are method calls; `JSON.stringify` and
    `JSON.parse` are abstracted, so frames are JavaScript values. */
module Channel {
  import opened Common
  import opened JsValue
  import Crypto
  import Base64

  const MaxReconnectAttempts: nat := 5
  const ReconnectDelay: nat := 2000
  /** Close codes of an intentional shutdown (section 7.4.1 of RFC 6455). */
  const NormalClosure: int := 1000
  const GoingAway: int := 1001
  /** The per-file ceiling `sendFiles` applies before encrypting. */
  const MaxFileSize: nat := 10 * MiB

  const KeyUnavailable: string := "[Message chiffré - clé non disponible]"
  const InvalidMessage: string := "[Message invalide]"

  /** `WebSocket.readyState`. */
  datatype ReadyState = Connecting | Open | Closing | Closed

  /** A registered callback, identified by the function object it is. */
  type CallbackId = nat

  /** What a callback receives: a message value, or the open, close or error event. */
  datatype Payload = Data(value: Value) | OpenEvent | CloseEvent(code: int) | ErrorEvent

  /** One call of a registered callback. */
  datatype Invocation = Invocation(callback: CallbackId, payload: Payload)

  /** What kind of sending failed, for the notice shown. */
  datatype SendKind = TextSend | VoiceSend

  /** The notifications the channel shows (`showNotification`). */
  datatype Notice =
    | ConnectionEstablished
    | MessageQueued
    | SendFailed(kind: SendKind)
    | Reconnecting(delay: nat, attempt: nat)
    | ConnectionLost
    | ConnectionClosed
    | ConnectionError
    | FileTooLarge(fileName: string)
    | FileSendFailed(fileName: string)

  function Pow2(n: nat): (r: nat)
    ensures r >= 1
  {
    if n == 0 then 1 else 2 * Pow2(n - 1)
  }

  /** The delay `attemptReconnect` waits before its `attempt`-th try: 2000 ms doubled per attempt. */
  function BackoffDelay(attempt: nat): nat
    requires attempt >= 1
  {
    ReconnectDelay * Pow2(attempt - 1)
  }

  /** Each further attempt waits twice as long as the one before. */
  lemma BackoffDoubles(attempt: nat)
    requires attempt >= 1
    ensures BackoffDelay(attempt + 1) == 2 * BackoffDelay(attempt)
  {
  }

  /** The five delays allowed between two successful opens run from 2 s to 32 s. */
  lemma {:induction false} BackoffBounds(attempt: nat)
    requires 1 <= attempt <= MaxReconnectAttempts
    ensures ReconnectDelay <= BackoffDelay(attempt) <= 32000
    decreases attempt
  {
    if attempt > 1 {
      BackoffBounds(attempt - 1);
      BackoffDoubles(attempt - 1);
      assert BackoffDelay(attempt - 1) <= 16000 by {
        if BackoffDelay(attempt - 1) > 16000 {
          BackoffTooLarge(attempt - 1);
        }
      }
    }
  }

  lemma {:induction false} BackoffTooLarge(attempt: nat)
    requires 1 <= attempt < MaxReconnectAttempts
    ensures BackoffDelay(attempt) <= 16000
    decreases attempt
  {
    if attempt > 1 {
      BackoffTooLarge(attempt - 1);
    }
  }

  /** The callbacks registered for `event`, in registration order. */
  function Listeners(callbacks: map<string, seq<CallbackId>>, event: string): seq<CallbackId>
  {
    if event in callbacks then callbacks[event] else []
  }

  /** The calls `trigger` makes: each listener once, in order, with the same payload. */
  function Calls(listeners: seq<CallbackId>, payload: Payload): (r: seq<Invocation>)
    ensures |r| == |listeners|
    ensures forall i :: 0 <= i < |r| ==> r[i] == Invocation(listeners[i], payload)
  {
    seq(|listeners|, i requires 0 <= i < |listeners| => Invocation(listeners[i], payload))
  }

  /** `callbacks.filter(cb => cb !== callback)`. */
  function Without(callbacks: seq<CallbackId>, callback: CallbackId): (r: seq<CallbackId>)
  {
    if callbacks == [] then []
    else (if callbacks[0] == callback then [] else [callbacks[0]]) + Without(callbacks[1..], callback)
  }

  /** `off` removes every registration of the callback and keeps every other one. */
  lemma {:induction false} WithoutRemoves(callbacks: seq<CallbackId>, callback: CallbackId)
    ensures callback !in Without(callbacks, callback)
    ensures forall x :: x != callback ==> multiset(Without(callbacks, callback))[x] == multiset(callbacks)[x]
    ensures |Without(callbacks, callback)| == |callbacks| - multiset(callbacks)[callback]
    decreases |callbacks|
  {
    if callbacks != [] {
      WithoutRemoves(callbacks[1..], callback);
      assert callbacks == [callbacks[0]] + callbacks[1..];
      assert multiset(callbacks) == multiset{callbacks[0]} + multiset(callbacks[1..]);
    }
  }

  /** `off` keeps the remaining callbacks in their registration order: filtering a concatenation
      filters each part. */
  lemma {:induction false} WithoutAppend(a: seq<CallbackId>, b: seq<CallbackId>, callback: CallbackId)
    ensures Without(a + b, callback) == Without(a, callback) + Without(b, callback)
    decreases |a|
  {
    if a != [] {
      WithoutAppend(a[1..], b, callback);
      assert (a + b)[1..] == a[1..] + b;
    } else {
      assert a + b == b;
    }
  }

  /** What a `text_message` turns into after `decryptMessage`: the same object with the
      decrypted `content` and `decrypted: true`. */
  function DecryptedMessage(message: Value, text: string): Value
  {
    Set(Set(message, "content", Str(text)), "decrypted", Bool(true))
  }

  /** `decryptMessage` as a function of the key state and the `content` field: a placeholder when
      there is no key, when the content is not a non-empty string, or when `atob` throws;
      otherwise what `decrypt` yields. */
  function ReceivedText(p: Crypto.Primitives, key: Option<Crypto.Key>, content: Value): (text: string)
  {
    if key.None? then KeyUnavailable
    else if !(content.Str? && content.s != "") then InvalidMessage
    else match Crypto.Deserialize(content.s)
      case None => Crypto.Undecryptable
      case Some(e) => Crypto.OpenText(p, key.value, e.encrypted, e.iv)
  }

  /** `decryptMessage` never throws: its result is the plaintext that `decrypt` yields or one of
      the three placeholders. */
  lemma ReceivedTextCases(p: Crypto.Primitives, key: Option<Crypto.Key>, content: Value)
    ensures var t := ReceivedText(p, key, content);
      t == KeyUnavailable || t == InvalidMessage || t == Crypto.Undecryptable
      || (key.Some? && content.Str? &&
          (exists e :: Crypto.Deserialize(content.s) == Some(e) && t == Crypto.OpenText(p, key.value, e.encrypted, e.iv)))
  {
  }

  /** A text message sent by a peer holding the same key reads back as the sent text. */
  lemma ReceivedTextRoundTrip(p: Crypto.Primitives, key: Crypto.Key, iv: Crypto.Iv, text: string)
    requires Crypto.Sound(p)
    requires !(|text| > 0 && text[0] == Crypto.Bom)
    ensures ReceivedText(p, Some(key), Str(Crypto.Serialize(p.seal(key, iv, p.utf8Encode(text)), iv))) == text
  {
    var c := p.seal(key, iv, p.utf8Encode(text));
    Crypto.EnvelopeRoundTrip(p, key, iv, text);
    Base64.EncodeAlphabet(iv + c);
    assert |Crypto.Serialize(c, iv)| > 0;
  }

  /** The `file_message` `sendFiles` builds for one file. */
  function FileMessage(p: Crypto.Primitives, key: Crypto.Key, file: File, iv: Crypto.Iv): Value
  {
    Obj(map[
      "type" := Str("file_message"),
      "content" := Str(Crypto.Serialize(p.seal(key, iv, file.data), iv)),
      "fileName" := Str(file.name),
      "fileType" := Str(file.mimeType),
      "fileSize" := Num(file.Size() as real)])
  }

  /** What `sendFiles` hands to `sendMessage` for one file: nothing for a file over 10 MiB
      or when there is no key (`encryptFile` throws), else the file's message. */
  function FileOut(p: Crypto.Primitives, key: Option<Crypto.Key>, file: File, iv: Crypto.Iv): seq<Value>
  {
    if file.Size() > MaxFileSize || key.None? then [] else [FileMessage(p, key.value, file, iv)]
  }

  /** The notice `sendFiles` shows for one file: oversized, encryption failed, or queued while
      disconnected. */
  function FileNotice(key: Option<Crypto.Key>, file: File, connected: bool): seq<Notice>
  {
    if file.Size() > MaxFileSize then [FileTooLarge(file.name)]
    else if key.None? then [FileSendFailed(file.name)]
    else if !connected then [MessageQueued]
    else []
  }

  /** The messages `sendFiles` hands to `sendMessage`, in input order. */
  function FileMessages(p: Crypto.Primitives, key: Option<Crypto.Key>, files: seq<File>, ivs: seq<Crypto.Iv>): seq<Value>
    requires |ivs| == |files|
  {
    if files == [] then []
    else FileMessages(p, key, files[..|files| - 1], ivs[..|ivs| - 1]) + FileOut(p, key, files[|files| - 1], ivs[|ivs| - 1])
  }

  /** The notices `sendFiles` shows, in input order. */
  function FileNotices(key: Option<Crypto.Key>, files: seq<File>, connected: bool): seq<Notice>
  {
    if files == [] then []
    else FileNotices(key, files[..|files| - 1], connected) + FileNotice(key, files[|files| - 1], connected)
  }

  /** The files of at most 10 MiB, in input order. */
  function SmallFiles(files: seq<File>): seq<File>
  {
    if files == [] then []
    else SmallFiles(files[..|files| - 1]) + (if files[|files| - 1].Size() > MaxFileSize then [] else [files[|files| - 1]])
  }

  /** The message carries the file's name, type and size, and the file is at most 10 MiB. */
  predicate Describes(m: Value, f: File)
  {
    Get(m, "fileName") == Str(f.name) && Get(m, "fileType") == Str(f.mimeType)
    && Get(m, "fileSize") == Num(f.Size() as real) && f.Size() <= MaxFileSize
  }

  /** `sendFiles` skips every file over 10 MiB, and with a key sends one message per other file,
      carrying that file's name, type and size, in input order. */
  lemma {:induction false} FileMessagesSelect(p: Crypto.Primitives, key: Crypto.Key, files: seq<File>, ivs: seq<Crypto.Iv>)
    requires |ivs| == |files|
    ensures |FileMessages(p, Some(key), files, ivs)| == |SmallFiles(files)|
    ensures forall i :: 0 <= i < |SmallFiles(files)| ==>
      Describes(FileMessages(p, Some(key), files, ivs)[i], SmallFiles(files)[i])
    decreases |files|
  {
    if files != [] {
      var n := |files| - 1;
      FileMessagesSelect(p, key, files[..n], ivs[..n]);
      var a, s := FileMessages(p, Some(key), files[..n], ivs[..n]), SmallFiles(files[..n]);
      if files[n].Size() <= MaxFileSize {
        var m := FileMessage(p, key, files[n], ivs[n]);
        assert FileMessages(p, Some(key), files, ivs) == a + [m];
        assert SmallFiles(files) == s + [files[n]];
        assert Describes(m, files[n]);
        forall i | 0 <= i < |s| + 1
          ensures Describes((a + [m])[i], (s + [files[n]])[i])
        {
          if i < |s| {
            assert (a + [m])[i] == a[i] && (s + [files[n]])[i] == s[i];
          }
        }
      } else {
        assert FileMessages(p, Some(key), files, ivs) == a;
        assert SmallFiles(files) == s;
      }
    }
  }

  /** Without a key `sendFiles` sends nothing and shows one notice per file. */
  lemma {:induction false} FileMessagesNoKey(p: Crypto.Primitives, files: seq<File>, ivs: seq<Crypto.Iv>, connected: bool)
    requires |ivs| == |files|
    ensures FileMessages(p, None, files, ivs) == []
    ensures |FileNotices(None, files, connected)| == |files|
    decreases |files|
  {
    if files != [] {
      var n := |files| - 1;
      FileMessagesNoKey(p, files[..n], ivs[..n], connected);
    }
  }

  /** A receiving peer with the same key recovers the file's exact bytes from the message content. */
  lemma FileMessageRoundTrip(p: Crypto.Primitives, key: Crypto.Key, file: File, iv: Crypto.Iv)
    requires Crypto.Sound(p)
    ensures var m := FileMessage(p, key, file, iv);
      Get(m, "content").Str?
      && Crypto.Deserialize(Get(m, "content").s) == Some(Crypto.Encrypted(p.seal(key, iv, file.data), iv))
      && p.open(key, iv, p.seal(key, iv, file.data)) == Some(file.data)
  {
    Crypto.DeserializeSerialize(p.seal(key, iv, file.data), iv);
  }

  class WebSocketManager {
    /** `this.ws !== null`, and the state of that socket. */
    var hasSocket: bool
    var readyState: ReadyState
    var isConnected: bool
    var reconnectAttempts: nat
    var messageQueue: seq<Value>
    var callbacks: map<string, seq<CallbackId>>
    /** Frames written with `ws.send`, oldest first. */
    var sent: seq<Value>
    /** Callback calls made by `trigger`, oldest first. */
    var invoked: seq<Invocation>
    /** Notifications shown, oldest first. */
    var notices: seq<Notice>
    /** Delays handed to `setTimeout` for reconnection, oldest first. */
    var timers: seq<nat>
    /** How many reconnects had been scheduled when the connection last opened. */
    ghost var openedAt: nat

    /** The backoff invariant: since the last successful open at most five reconnects were
        scheduled, the k-th of them after 2000 * 2^(k-1) ms, and a live connection has a socket. */
    ghost predicate Valid()
      reads this`reconnectAttempts, this`timers, this`openedAt, this`isConnected, this`hasSocket
    {
      reconnectAttempts <= MaxReconnectAttempts
      && openedAt + reconnectAttempts == |timers|
      && (forall i :: openedAt <= i < |timers| ==> timers[i] == BackoffDelay(i - openedAt + 1))
      && (isConnected ==> hasSocket)
    }

    /** `out` went to the socket after `sent0` when the channel can send, else to the tail of
        the queue after `queue0`; the other of the two is unchanged. */
    ghost predicate Delivered(sent0: seq<Value>, queue0: seq<Value>, out: seq<Value>)
      reads this`isConnected, this`readyState, this`sent, this`messageQueue
    {
      if CanSend() then sent == sent0 + out && messageQueue == queue0
      else sent == sent0 && messageQueue == queue0 + out
    }

    lemma DeliveredTwice(sent0: seq<Value>, queue0: seq<Value>, sent1: seq<Value>, queue1: seq<Value>, a: seq<Value>, b: seq<Value>)
      requires (if CanSend() then sent1 == sent0 + a && queue1 == queue0 else sent1 == sent0 && queue1 == queue0 + a)
      requires Delivered(sent1, queue1, b)
      ensures Delivered(sent0, queue0, a + b)
    {
    }

    /** Whether `sendMessage` writes to the socket rather than queueing. */
    predicate CanSend()
      reads this`isConnected, this`readyState
    {
      isConnected && readyState == Open
    }

    /** A new manager: no socket, disconnected, no attempt made, nothing queued, no callbacks. */
    constructor ()
      ensures Valid()
      ensures !hasSocket && !isConnected && reconnectAttempts == 0
      ensures messageQueue == [] && callbacks == map[]
      ensures sent == [] && invoked == [] && notices == [] && timers == []
    {
      hasSocket, readyState, isConnected := false, Closed, false;
      reconnectAttempts := 0;
      messageQueue, callbacks := [], map[];
      sent, invoked, notices, timers := [], [], [], [];
      openedAt := 0;
    }

    /** `connect`: a new socket in the connecting state, or, when the constructor throws,
        the error path. */
    method Connect(created: bool)
      requires Valid()
      modifies this`hasSocket, this`readyState, this`invoked, this`notices
      ensures Valid()
      ensures created ==> hasSocket && readyState == Connecting
      ensures created ==> invoked == old(invoked) && notices == old(notices)
      ensures !created ==> hasSocket == old(hasSocket) && readyState == old(readyState)
      ensures !created ==> invoked == old(invoked) + Calls(Listeners(callbacks, "error"), ErrorEvent)
      ensures !created ==> notices == old(notices) + (if isConnected then [] else [ConnectionError])
    {
      if created {
        hasSocket, readyState := true, Connecting;
      } else {
        HandleError();
      }
    }

    /** `onopen`: connected, the attempt counter back to 0, every queued message sent in FIFO
        order and the queue emptied, then the `connected` callbacks. */
    method OnOpen()
      requires Valid() && hasSocket
      modifies this`readyState, this`isConnected, this`reconnectAttempts, this`openedAt
      modifies this`messageQueue, this`sent, this`invoked, this`notices
      ensures Valid()
      ensures readyState == Open && isConnected && reconnectAttempts == 0
      ensures messageQueue == [] && sent == old(sent) + old(messageQueue)
      ensures invoked == old(invoked) + Calls(Listeners(callbacks, "connected"), OpenEvent)
      ensures notices == old(notices) + [ConnectionEstablished]
      ensures timers == old(timers) && callbacks == old(callbacks) && hasSocket
    {
      readyState := Open;
      isConnected := true;
      reconnectAttempts := 0;
      openedAt := |timers|;
      FlushMessageQueue();
      Trigger("connected", OpenEvent);
      notices := notices + [ConnectionEstablished];
    }

    /** `flushMessageQueue`: shifts messages off the head of the queue and sends each. */
    method FlushMessageQueue()
      modifies this`messageQueue, this`sent
      ensures messageQueue == [] && sent == old(sent) + old(messageQueue)
    {
      while |messageQueue| > 0
        invariant sent + messageQueue == old(sent) + old(messageQueue)
        decreases |messageQueue|
      {
        var message := messageQueue[0];
        messageQueue := messageQueue[1..];
        sent := sent + [message];
      }
    }

    /** `sendMessage`: written at once when connected and open; otherwise appended to the tail
        of the queue, with a notice when the manager is not connected. */
    method SendMessage(message: Value)
      modifies this`sent, this`messageQueue, this`notices
      ensures CanSend() ==> sent == old(sent) + [message] && messageQueue == old(messageQueue)
      ensures !CanSend() ==> sent == old(sent) && messageQueue == old(messageQueue) + [message]
      ensures notices == old(notices) + (if isConnected then [] else [MessageQueued])
    {
      if isConnected && readyState == Open {
        sent := sent + [message];
      } else {
        messageQueue := messageQueue + [message];
        if !isConnected {
          notices := notices + [MessageQueued];
        }
      }
    }

    /** `onclose`: disconnected and the `disconnected` callbacks called; a reconnect is scheduled
        exactly when the code is neither 1000 nor 1001 and fewer than five attempts were made. */
    method OnClose(code: int)
      requires Valid()
      modifies this`readyState, this`isConnected, this`invoked, this`reconnectAttempts, this`timers, this`notices
      ensures Valid()
      ensures readyState == Closed && !isConnected
      ensures invoked == old(invoked) + Calls(Listeners(callbacks, "disconnected"), CloseEvent(code))
      ensures var retry := code != NormalClosure && code != GoingAway && old(reconnectAttempts) < MaxReconnectAttempts;
        && reconnectAttempts == old(reconnectAttempts) + (if retry then 1 else 0)
        && timers == old(timers) + (if retry then [BackoffDelay(reconnectAttempts)] else [])
        && notices == old(notices) + (
             if retry then [Reconnecting(BackoffDelay(reconnectAttempts), reconnectAttempts)]
             else if old(reconnectAttempts) >= MaxReconnectAttempts then [ConnectionLost]
             else [ConnectionClosed])
      ensures messageQueue == old(messageQueue) && sent == old(sent) && callbacks == old(callbacks)
      ensures hasSocket == old(hasSocket)
    {
      readyState := Closed;
      isConnected := false;
      Trigger("disconnected", CloseEvent(code));
      if code != NormalClosure && code != GoingAway && reconnectAttempts < MaxReconnectAttempts {
        AttemptReconnect();
      } else if reconnectAttempts >= MaxReconnectAttempts {
        notices := notices + [ConnectionLost];
      } else if code == NormalClosure || code == GoingAway {
        notices := notices + [ConnectionClosed];
      }
    }

    /** `attemptReconnect`: one more attempt, scheduled after 2000 * 2^(attempts - 1) ms. */
    method AttemptReconnect()
      requires Valid() && reconnectAttempts < MaxReconnectAttempts
      modifies this`reconnectAttempts, this`timers, this`notices
      ensures Valid()
      ensures reconnectAttempts == old(reconnectAttempts) + 1
      ensures timers == old(timers) + [BackoffDelay(reconnectAttempts)]
      ensures notices == old(notices) + [Reconnecting(BackoffDelay(reconnectAttempts), reconnectAttempts)]
    {
      reconnectAttempts := reconnectAttempts + 1;
      var delay := ReconnectDelay * Pow2(reconnectAttempts - 1);
      notices := notices + [Reconnecting(delay, reconnectAttempts)];
      timers := timers + [delay];
    }

    /** `onerror` / `handleError`: the `error` callbacks, and a notice when not connected. */
    method HandleError()
      modifies this`invoked, this`notices
      ensures invoked == old(invoked) + Calls(Listeners(callbacks, "error"), ErrorEvent)
      ensures notices == old(notices) + (if isConnected then [] else [ConnectionError])
    {
      Trigger("error", ErrorEvent);
      if !isConnected {
        notices := notices + [ConnectionError];
      }
    }

    /** `onmessage`: a frame that does not parse (`parsed` is None) is dropped; the rest are
        dispatched. */
    method OnMessage(parsed: Option<Value>, crypto: Crypto.CryptoManager)
      requires crypto.Valid()
      modifies this`invoked
      ensures parsed.None? ==> invoked == old(invoked)
      ensures parsed.Some? ==> invoked == old(invoked) + Dispatch(parsed.value, callbacks, crypto.primitives, crypto.key)
    {
      if parsed.Some? {
        HandleMessage(parsed.value, crypto);
      }
    }

    /** `handleMessage`: dispatch on the `type` tag. */
    method HandleMessage(message: Value, crypto: Crypto.CryptoManager)
      requires crypto.Valid()
      modifies this`invoked
      ensures invoked == old(invoked) + Dispatch(message, callbacks, crypto.primitives, crypto.key)
    {
      var kind := Get(message, "type");
      if kind == Str("user_id") {
        Trigger("user_id", Data(Get(message, "userId")));
      } else if kind == Str("user_count") {
        Trigger("user_count", Data(Get(message, "count")));
      } else if kind == Str("text_message") {
        var text := DecryptMessage(Get(message, "content"), crypto);
        Trigger("message", Data(DecryptedMessage(message, text)));
      } else if kind == Str("voice_message") {
        Trigger("voice_message", Data(message));
      } else if kind == Str("file_message") {
        Trigger("file_message", Data(message));
      }
    }

    /** `decryptMessage`: never throws; the plaintext or a placeholder. */
    method DecryptMessage(content: Value, crypto: Crypto.CryptoManager) returns (text: string)
      requires crypto.Valid()
      ensures text == ReceivedText(crypto.primitives, crypto.key, content)
      ensures !crypto.keyGenerated ==> text == KeyUnavailable
      ensures crypto.keyGenerated && !(content.Str? && content.s != "") ==> text == InvalidMessage
      ensures crypto.keyGenerated && content.Str? && content.s != "" && Crypto.Deserialize(content.s).None?
        ==> text == Crypto.Undecryptable
    {
      if !crypto.keyGenerated {
        return KeyUnavailable;
      }
      if !(content.Str? && content.s != "") {
        return InvalidMessage;
      }
      var envelope := Crypto.Deserialize(content.s);
      if envelope.None? {
        return Crypto.Undecryptable;
      }
      var r := crypto.Decrypt(envelope.value.encrypted, envelope.value.iv);
      text := r.value;
    }

    /** `sendTextMessage`: with a key, the text encrypted under the fresh IV, serialised and
        handed to `sendMessage`; without one, only the failure notice. */
    method SendTextMessage(text: string, freshIv: Crypto.Iv, crypto: Crypto.CryptoManager)
      requires crypto.Valid()
      modifies this`sent, this`messageQueue, this`notices
      ensures !crypto.keyGenerated ==> sent == old(sent) && messageQueue == old(messageQueue)
      ensures !crypto.keyGenerated ==> notices == old(notices) + [SendFailed(TextSend)]
      ensures crypto.keyGenerated ==>
        var m := TextMessage(Crypto.Serialize(crypto.primitives.seal(crypto.key.value, freshIv, crypto.primitives.utf8Encode(text)), freshIv));
        (CanSend() ==> sent == old(sent) + [m] && messageQueue == old(messageQueue))
        && (!CanSend() ==> sent == old(sent) && messageQueue == old(messageQueue) + [m])
        && notices == old(notices) + (if isConnected then [] else [MessageQueued])
    {
      if !crypto.keyGenerated {
        notices := notices + [SendFailed(TextSend)];
        return;
      }
      var e := crypto.Encrypt(Crypto.Text(text), freshIv);
      var serialized := Crypto.Serialize(e.value.encrypted, e.value.iv);
      SendMessage(TextMessage(serialized));
    }

    /** `sendVoiceMessage`: the recording encrypted, serialised and sent with its duration;
        without a key `encrypt` throws and only the failure notice is shown. */
    method SendVoiceMessage(audio: Bytes, duration: real, freshIv: Crypto.Iv, crypto: Crypto.CryptoManager)
      requires crypto.Valid()
      modifies this`sent, this`messageQueue, this`notices
      ensures !crypto.keyGenerated ==> sent == old(sent) && messageQueue == old(messageQueue)
      ensures !crypto.keyGenerated ==> notices == old(notices) + [SendFailed(VoiceSend)]
      ensures crypto.keyGenerated ==>
        var m := VoiceMessage(Crypto.Serialize(crypto.primitives.seal(crypto.key.value, freshIv, audio), freshIv), duration);
        (CanSend() ==> sent == old(sent) + [m] && messageQueue == old(messageQueue))
        && (!CanSend() ==> sent == old(sent) && messageQueue == old(messageQueue) + [m])
        && notices == old(notices) + (if isConnected then [] else [MessageQueued])
    {
      var e := crypto.Encrypt(Crypto.Binary(audio), freshIv);
      if e.Failure? {
        notices := notices + [SendFailed(VoiceSend)];
        return;
      }
      var serialized := Crypto.Serialize(e.value.encrypted, e.value.iv);
      SendMessage(VoiceMessage(serialized, duration));
    }

    /** `sendFiles`: files one after another; a file over 10 MiB is skipped with a notice, a
        file whose encryption throws is skipped with a notice, the others go to `sendMessage`.
        `ivs` are the IVs the random source draws, one per file. */
    method SendFiles(files: seq<File>, ivs: seq<Crypto.Iv>, crypto: Crypto.CryptoManager)
      requires |ivs| == |files| && crypto.Valid()
      modifies this`sent, this`messageQueue, this`notices
      ensures var out := FileMessages(crypto.primitives, crypto.key, files, ivs);
        (CanSend() ==> sent == old(sent) + out && messageQueue == old(messageQueue))
        && (!CanSend() ==> sent == old(sent) && messageQueue == old(messageQueue) + out)
      ensures notices == old(notices) + FileNotices(crypto.key, files, isConnected)
    {
      var i := 0;
      while i < |files|
        invariant 0 <= i <= |files|
        invariant Delivered(old(sent), old(messageQueue), FileMessages(crypto.primitives, crypto.key, files[..i], ivs[..i]))
        invariant notices == old(notices) + FileNotices(crypto.key, files[..i], isConnected)
      {
        SendNextFile(files, ivs, crypto, i, old(sent), old(messageQueue), old(notices));
        i := i + 1;
      }
      assert files[..i] == files && ivs[..i] == ivs;
    }

    /** The `i`-th pass of the `sendFiles` loop extends what the first `i` passes did. */
    method SendNextFile(files: seq<File>, ivs: seq<Crypto.Iv>, crypto: Crypto.CryptoManager, i: nat,
                        ghost sent0: seq<Value>, ghost queue0: seq<Value>, ghost notices0: seq<Notice>)
      requires |ivs| == |files| && i < |files| && crypto.Valid()
      requires Delivered(sent0, queue0, FileMessages(crypto.primitives, crypto.key, files[..i], ivs[..i]))
      requires notices == notices0 + FileNotices(crypto.key, files[..i], isConnected)
      modifies this`sent, this`messageQueue, this`notices
      ensures Delivered(sent0, queue0, FileMessages(crypto.primitives, crypto.key, files[..i + 1], ivs[..i + 1]))
      ensures notices == notices0 + FileNotices(crypto.key, files[..i + 1], isConnected)
    {
      FileMessagesSnoc(crypto.primitives, crypto.key, files, ivs, i);
      FileNoticesSnoc(crypto.key, files, i, isConnected);
      ghost var sent1, queue1 := sent, messageQueue;
      SendFile(files[i], ivs[i], crypto);
      DeliveredTwice(sent0, queue0, sent1, queue1,
        FileMessages(crypto.primitives, crypto.key, files[..i], ivs[..i]),
        FileOut(crypto.primitives, crypto.key, files[i], ivs[i]));
    }

    /** One pass of the `sendFiles` loop. */
    method SendFile(file: File, iv: Crypto.Iv, crypto: Crypto.CryptoManager)
      requires crypto.Valid()
      modifies this`sent, this`messageQueue, this`notices
      ensures Delivered(old(sent), old(messageQueue), FileOut(crypto.primitives, crypto.key, file, iv))
      ensures notices == old(notices) + FileNotice(crypto.key, file, isConnected)
    {
      if file.Size() > MaxFileSize {
        notices := notices + [FileTooLarge(file.name)];
        return;
      }
      var e := crypto.EncryptFile(file, iv);
      if e.Failure? {
        notices := notices + [FileSendFailed(file.name)];
        return;
      }
      var serialized := Crypto.Serialize(e.value.encrypted, e.value.iv);
      var message := Obj(map[
        "type" := Str("file_message"),
        "content" := Str(serialized),
        "fileName" := Str(e.value.name),
        "fileType" := Str(e.value.mimeType),
        "fileSize" := Num(e.value.size as real)]);
      assert message == FileMessage(crypto.primitives, crypto.key.value, file, iv);
      SendMessage(message);
    }

    /** `on`: appends the callback to the event's list, creating the list on first use. */
    method On(event: string, callback: CallbackId)
      modifies this`callbacks
      ensures callbacks == old(callbacks)[event := Listeners(old(callbacks), event) + [callback]]
    {
      if event !in callbacks {
        callbacks := callbacks[event := []];
      }
      callbacks := callbacks[event := callbacks[event] + [callback]];
    }

    /** `off`: removes every registration of the callback for the event, keeping the rest in order. */
    method Off(event: string, callback: CallbackId)
      modifies this`callbacks
      ensures event in old(callbacks) ==> callbacks == old(callbacks)[event := Without(old(callbacks)[event], callback)]
      ensures event !in old(callbacks) ==> callbacks == old(callbacks)
    {
      if event in callbacks {
        callbacks := callbacks[event := Without(callbacks[event], callback)];
      }
    }

    /** `trigger`: calls the event's callbacks in registration order. */
    method Trigger(event: string, payload: Payload)
      modifies this`invoked
      ensures invoked == old(invoked) + Calls(Listeners(callbacks, event), payload)
    {
      if event in callbacks {
        var listeners := callbacks[event];
        var i := 0;
        while i < |listeners|
          invariant 0 <= i <= |listeners|
          invariant invoked == old(invoked) + Calls(listeners[..i], payload)
        {
          assert listeners[..i + 1] == listeners[..i] + [listeners[i]];
          invoked := invoked + [Invocation(listeners[i], payload)];
          i := i + 1;
        }
        assert listeners[..i] == listeners;
      }
    }

    /** `disconnect`: an intentional close (code 1000) of the current socket. For an open socket
        the close event that follows arrives as `OnClose(1000)`, which schedules no reconnect. A
        socket still connecting is failed instead, as the WebSocket `close()` algorithm
        prescribes: its close event carries 1006, and `OnClose(1006)` schedules a reconnect. */
    method Disconnect()
      modifies this`readyState
      ensures hasSocket && old(readyState) in {Connecting, Open} ==> readyState == Closing
      ensures !(hasSocket && old(readyState) in {Connecting, Open}) ==> readyState == old(readyState)
    {
      if hasSocket && (readyState == Connecting || readyState == Open) {
        readyState := Closing;
      }
    }
  }

  function TextMessage(serialized: string): Value
  {
    Obj(map["type" := Str("text_message"), "content" := Str(serialized)])
  }

  function VoiceMessage(serialized: string, duration: real): Value
  {
    Obj(map["type" := Str("voice_message"), "content" := Str(serialized), "duration" := Num(duration)])
  }

  /** The callback calls `handleMessage` makes for an inbound message. */
  function Dispatch(message: Value, callbacks: map<string, seq<CallbackId>>, p: Crypto.Primitives, key: Option<Crypto.Key>): seq<Invocation>
  {
    var kind := Get(message, "type");
    if kind == Str("user_id") then Calls(Listeners(callbacks, "user_id"), Data(Get(message, "userId")))
    else if kind == Str("user_count") then Calls(Listeners(callbacks, "user_count"), Data(Get(message, "count")))
    else if kind == Str("text_message") then
      Calls(Listeners(callbacks, "message"), Data(DecryptedMessage(message, ReceivedText(p, key, Get(message, "content")))))
    else if kind == Str("voice_message") then Calls(Listeners(callbacks, "voice_message"), Data(message))
    else if kind == Str("file_message") then Calls(Listeners(callbacks, "file_message"), Data(message))
    else []
  }

  /** Messages of any other type, and values that are not objects, fire nothing. */
  lemma DispatchUnknown(message: Value, callbacks: map<string, seq<CallbackId>>, p: Crypto.Primitives, key: Option<Crypto.Key>)
    requires Get(message, "type") !in {Str("user_id"), Str("user_count"), Str("text_message"), Str("voice_message"), Str("file_message")}
    ensures Dispatch(message, callbacks, p, key) == []
  {
  }

  /** A `text_message` reaches every `message` callback as the same object with `content`
      replaced by its decryption, `decrypted` set, and every other field kept. */
  lemma DispatchTextMessage(message: Value, callbacks: map<string, seq<CallbackId>>, p: Crypto.Primitives, key: Option<Crypto.Key>)
    requires message.Obj? && Get(message, "type") == Str("text_message")
    ensures var calls := Dispatch(message, callbacks, p, key);
      |calls| == |Listeners(callbacks, "message")|
      && forall i :: 0 <= i < |calls| ==>
        calls[i].callback == Listeners(callbacks, "message")[i]
        && calls[i].payload.Data?
        && var out := calls[i].payload.value;
        Get(out, "content") == Str(ReceivedText(p, key, Get(message, "content")))
        && Get(out, "decrypted") == Bool(true)
        && out.Obj? && out.fields.Keys == message.fields.Keys + {"content", "decrypted"}
        && forall k :: k in message.fields && k != "content" && k != "decrypted" ==> Get(out, k) == message.fields[k]
  {
  }

  /** Voice and file messages are forwarded unchanged, still encrypted. */
  lemma DispatchForwards(message: Value, callbacks: map<string, seq<CallbackId>>, p: Crypto.Primitives, key: Option<Crypto.Key>)
    requires Get(message, "type") in {Str("voice_message"), Str("file_message")}
    ensures var event := Get(message, "type").s;
      Dispatch(message, callbacks, p, key) == Calls(Listeners(callbacks, event), Data(message))
  {
  }

  /** One more file extends the messages of `sendFiles` by that file's own. */
  lemma FileMessagesSnoc(p: Crypto.Primitives, key: Option<Crypto.Key>, files: seq<File>, ivs: seq<Crypto.Iv>, i: nat)
    requires |ivs| == |files| && i < |files|
    ensures FileMessages(p, key, files[..i + 1], ivs[..i + 1])
      == FileMessages(p, key, files[..i], ivs[..i]) + FileOut(p, key, files[i], ivs[i])
  {
    assert files[..i + 1][..i] == files[..i] && ivs[..i + 1][..i] == ivs[..i];
  }

  /** One more file extends the notices of `sendFiles` by that file's own. */
  lemma FileNoticesSnoc(key: Option<Crypto.Key>, files: seq<File>, i: nat, connected: bool)
    requires i < |files|
    ensures FileNotices(key, files[..i + 1], connected)
      == FileNotices(key, files[..i], connected) + FileNotice(key, files[i], connected)
  {
    assert files[..i + 1][..i] == files[..i];
  }
}
