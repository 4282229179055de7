/** The log bookkeeping of the WebSocket provider: sending and receiving append tagged
    lines to a log list, count messages each way, and hand the log to every registered
    log listener; plus the `upTime` coercion applied to `sysinfo` messages. The socket
    is abstracted to whether one exists, whether it is connected, and whether adding a
    frame to it throws. */
module WebSocketLog {
  import opened Text
  import opened DartInt

  // Log lines.

  /** The tag of a sent message (an arrow pointing right, emoji presentation, a space). */
  const SentPrefix: string := "\U{27A1}\U{FE0F} "
  /** The tag of a received message (an arrow pointing left, emoji presentation, a space). */
  const ReceivedPrefix: string := "\U{2B05}\U{FE0F} "

  datatype LogEntry = Sent(message: string) | Received(message: string)

  /** The text of a log line. */
  function LogLine(e: LogEntry): (line: string)
    ensures ParseLogLine(line) == Some(e)
  {
    match e
    case Sent(m) =>
      assert (SentPrefix + m)[..3] == SentPrefix && (SentPrefix + m)[3..] == m;
      SentPrefix + m
    case Received(m) =>
      assert (ReceivedPrefix + m)[..3] == ReceivedPrefix && (ReceivedPrefix + m)[3..] == m;
      ReceivedPrefix + m
  }

  /** Reading a log line back: its direction from the tag, the message after it. */
  function ParseLogLine(line: string): (e: Option<LogEntry>)
    ensures e.Some? ==> line == (if e.value.Sent? then SentPrefix else ReceivedPrefix) + e.value.message
  {
    if |line| >= 3 && line[..3] == SentPrefix then
      assert SentPrefix + line[3..] == line;
      Some(Sent(line[3..]))
    else if |line| >= 3 && line[..3] == ReceivedPrefix then
      assert ReceivedPrefix + line[3..] == line;
      Some(Received(line[3..]))
    else None
  }

  /** Every line that parses is the printed form of what it parses to. */
  lemma PrintParsed(line: string)
    ensures ParseLogLine(line).Some? ==> LogLine(ParseLogLine(line).value) == line
  {
  }

  /** Log lines are unambiguous: different entries never print the same line, so in
      particular no sent line reads as a received one. */
  lemma LogLinesDistinct(a: LogEntry, b: LogEntry)
    ensures LogLine(a) == LogLine(b) <==> a == b
  {
    if LogLine(a) == LogLine(b) {
      assert ParseLogLine(LogLine(a)) == Some(a);
      assert ParseLogLine(LogLine(b)) == Some(b);
    }
  }

  /** The number of sent lines in a log. */
  function SentLines(logs: seq<string>): nat
  {
    if logs == [] then 0
    else SentLines(logs[..|logs| - 1])
         + (match ParseLogLine(logs[|logs| - 1]) case Some(Sent(_)) => 1 case _ => 0)
  }

  /** The number of received lines in a log. */
  function ReceivedLines(logs: seq<string>): nat
  {
    if logs == [] then 0
    else ReceivedLines(logs[..|logs| - 1])
         + (match ParseLogLine(logs[|logs| - 1]) case Some(Received(_)) => 1 case _ => 0)
  }

  /** Appending a log line keeps every line tagged and adds one to the count of its
      direction only. */
  lemma AppendLogLine(logs: seq<string>, e: LogEntry)
    requires forall k :: 0 <= k < |logs| ==> ParseLogLine(logs[k]).Some?
    ensures forall k :: 0 <= k < |logs| + 1 ==> ParseLogLine((logs + [LogLine(e)])[k]).Some?
    ensures SentLines(logs + [LogLine(e)]) == SentLines(logs) + (if e.Sent? then 1 else 0)
    ensures ReceivedLines(logs + [LogLine(e)]) == ReceivedLines(logs) + (if e.Received? then 1 else 0)
  {
    var ext := logs + [LogLine(e)];
    assert ext[..|ext| - 1] == logs;
  }

  // Listeners.

  /** A registered log listener; it keeps every log list it was handed, in order. */
  class LogListener {
    var delivered: seq<seq<string>>

    constructor()
      ensures delivered == []
    {
      delivered := [];
    }
  }

  /** The number of times `x` occurs in `s`. */
  function Occurrences<T(==)>(s: seq<T>, x: T): nat
  {
    if s == [] then 0
    else Occurrences(s[..|s| - 1], x) + (if s[|s| - 1] == x then 1 else 0)
  }

  /** `n` copies of `v`. */
  function Repeat<T>(v: T, n: nat): (r: seq<T>)
    ensures |r| == n && forall k :: 0 <= k < n ==> r[k] == v
  {
    if n == 0 then [] else Repeat(v, n - 1) + [v]
  }

  /** Dart `List.remove(x)`: drops the first occurrence of `x`, if any. */
  function RemoveFirst<T(==)>(s: seq<T>, x: T): (r: seq<T>)
    ensures x !in s ==> r == s
    ensures x in s ==> |r| == |s| - 1
  {
    if s == [] then []
    else if s[0] == x then s[1..]
    else
      assert x in s ==> x in s[1..];
      [s[0]] + RemoveFirst(s[1..], x)
  }

  /** Removing a registered element takes out exactly one copy of it and keeps every
      element before its first occurrence in place. */
  lemma RemoveFirstRemovesOne<T>(s: seq<T>, x: T)
    requires x in s
    ensures multiset(RemoveFirst(s, x)) == multiset(s) - multiset{x}
    ensures forall k :: 0 <= k < |s| && x !in s[..k + 1] ==> RemoveFirst(s, x)[k] == s[k]
    ensures exists i :: 0 <= i < |s| && s[i] == x && x !in s[..i] && RemoveFirst(s, x) == s[..i] + s[i + 1..]
  {
    var i := RemovedAt(s, x);
    DropOneCount(s, i);
    forall k | 0 <= k < |s| && x !in s[..k + 1]
      ensures RemoveFirst(s, x)[k] == s[k]
    {
      if k < i {
        assert RemoveFirst(s, x)[k] == s[..i][k];
      }
    }
  }

  /** Dropping the element at `i` takes exactly that element out of the multiset. */
  lemma DropOneCount<T>(s: seq<T>, i: nat)
    requires i < |s|
    ensures multiset(s[..i] + s[i + 1..]) == multiset(s) - multiset{s[i]}
  {
    assert s == s[..i] + [s[i]] + s[i + 1..];
  }

  /** The position of the registration that `RemoveFirst` takes out: the first one. */
  lemma {:induction false} RemovedAt<T>(s: seq<T>, x: T) returns (i: nat)
    requires x in s
    ensures i < |s| && s[i] == x && x !in s[..i]
    ensures RemoveFirst(s, x) == s[..i] + s[i + 1..]
    decreases |s|
  {
    if s[0] == x {
      i := 0;
    } else {
      var tail := s[1..];
      var j := RemovedAt(tail, x);
      i := j + 1;
      assert s[..i] == [s[0]] + tail[..j];
      assert s[i + 1..] == tail[j + 1..];
    }
  }

  /** Adding a listener that was not registered and then removing it restores the list. */
  lemma {:induction false} AddThenRemove<T>(s: seq<T>, x: T)
    requires x !in s
    ensures RemoveFirst(s + [x], x) == s
    decreases |s|
  {
    if s != [] {
      assert (s + [x])[1..] == s[1..] + [x];
      AddThenRemove(s[1..], x);
      assert s == [s[0]] + s[1..];
    }
  }

  /** Every listener in `listeners` was handed `log` once per registration, and nothing
      else. */
  twostate predicate ListenersGot(listeners: seq<LogListener>, log: seq<string>)
    reads listeners
  {
    forall l :: l in listeners ==>
      l.delivered == old(l.delivered) + Repeat(log, Occurrences(listeners, l))
  }

  /** The provider's log state. */
  class WebSocketProvider {
    var hasSocket: bool
    var isConnected: bool
    /** The frames handed to the socket. */
    var sentFrames: seq<string>
    var lastMessage: Option<string>
    var logs: seq<string>
    var sentCount: nat
    var receivedCount: nat
    var logListeners: seq<LogListener>
    var errorMessage: Option<string>
    /** How many times `notifyListeners` was called. */
    var changeNotifications: nat

    /** Every log line is a tagged sent or received line; the log never shows more
        sends or receptions than were counted (clearing empties the log but keeps the
        counters); the counter of sends counts the frames handed to the socket; a last
        message exists once something was received. */
    ghost predicate Valid()
      reads this
    {
      && (forall k :: 0 <= k < |logs| ==> ParseLogLine(logs[k]).Some?)
      && SentLines(logs) <= sentCount
      && ReceivedLines(logs) <= receivedCount
      && sentCount == |sentFrames|
      && (lastMessage.Some? <==> receivedCount > 0)
    }

    /** A provider with the given connection state and empty logs. */
    constructor(hasSocket: bool, isConnected: bool)
      ensures Valid()
      ensures this.hasSocket == hasSocket && this.isConnected == isConnected
      ensures sentFrames == [] && lastMessage == None && logs == []
      ensures sentCount == 0 && receivedCount == 0 && logListeners == []
      ensures errorMessage == None && changeNotifications == 0
    {
      this.hasSocket := hasSocket;
      this.isConnected := isConnected;
      sentFrames := [];
      lastMessage := None;
      logs := [];
      sentCount := 0;
      receivedCount := 0;
      logListeners := [];
      errorMessage := None;
      changeNotifications := 0;
    }


    /** `_notifyLogListeners`: calls every listener in turn with the log list. */
    method NotifyLogListeners()
      modifies logListeners
      ensures ListenersGot(logListeners, logs)
    {
      var i := 0;
      while i < |logListeners|
        invariant 0 <= i <= |logListeners|
        invariant forall l :: l in logListeners ==>
          l.delivered == old(l.delivered) + Repeat(logs, Occurrences(logListeners[..i], l))
      {
        var listener := logListeners[i];
        listener.delivered := listener.delivered + [logs];
        assert logListeners[..i + 1][..i] == logListeners[..i];
        i := i + 1;
      }
      assert logListeners[..i] == logListeners;
    }

    /** `sendMessage`, where `addFailure` is the error `_socket!.add` throws, if any.
        A connected send hands the frame to the socket, counts it, logs it and notifies;
        a failing add changes only the error message; without a connected socket the
        error message says so. Each path notifies the provider's listeners once. */
    method SendMessage(message: string, addFailure: Option<string>)
      requires Valid()
      modifies this, logListeners
      ensures Valid()
      ensures hasSocket == old(hasSocket) && isConnected == old(isConnected)
      ensures lastMessage == old(lastMessage) && receivedCount == old(receivedCount)
      ensures logListeners == old(logListeners)
      ensures changeNotifications == old(changeNotifications) + 1
      ensures old(hasSocket && isConnected) && addFailure.None? ==>
        && sentFrames == old(sentFrames) + [message]
        && sentCount == old(sentCount) + 1
        && logs == old(logs) + [LogLine(Sent(message))]
        && errorMessage == old(errorMessage)
        && ListenersGot(logListeners, logs)
      ensures !(old(hasSocket && isConnected) && addFailure.None?) ==>
        && sentFrames == old(sentFrames) && sentCount == old(sentCount) && logs == old(logs)
        && errorMessage == Some(if old(hasSocket && isConnected)
                                then "Failed to send message: " + addFailure.value
                                else "WebSocket not connected")
        && forall l :: l in logListeners ==> l.delivered == old(l.delivered)
    {
      if hasSocket && isConnected {
        if addFailure.None? {
          RecordSent(message);
        } else {
          errorMessage := Some("Failed to send message: " + addFailure.value);
          changeNotifications := changeNotifications + 1;
        }
      } else {
        errorMessage := Some("WebSocket not connected");
        changeNotifications := changeNotifications + 1;
      }
    }

    /** The successful path of `sendMessage`, after the socket took the frame. */
    method RecordSent(message: string)
      requires Valid()
      modifies this, logListeners
      ensures Valid()
      ensures sentFrames == old(sentFrames) + [message]
      ensures sentCount == old(sentCount) + 1
      ensures logs == old(logs) + [LogLine(Sent(message))]
      ensures lastMessage == old(lastMessage) && receivedCount == old(receivedCount)
      ensures errorMessage == old(errorMessage)
      ensures hasSocket == old(hasSocket) && isConnected == old(isConnected)
      ensures logListeners == old(logListeners)
      ensures changeNotifications == old(changeNotifications) + 1
      ensures ListenersGot(logListeners, logs)
    {
      var line := LogLine(Sent(message));
      AppendLogLine(logs, Sent(message));
      sentFrames := sentFrames + [message];
      sentCount := sentCount + 1;
      logs := logs + [line];
      changeNotifications := changeNotifications + 1;
      assert Valid();
      NotifyLogListeners();
    }

    /** `clearLogs`: empties the log, keeps both counters, notifies. */
    method ClearLogs()
      requires Valid()
      modifies this, logListeners
      ensures Valid()
      ensures logs == []
      ensures sentCount == old(sentCount) && receivedCount == old(receivedCount)
      ensures sentFrames == old(sentFrames) && lastMessage == old(lastMessage)
      ensures errorMessage == old(errorMessage)
      ensures hasSocket == old(hasSocket) && isConnected == old(isConnected)
      ensures logListeners == old(logListeners)
      ensures changeNotifications == old(changeNotifications) + 1
      ensures ListenersGot(logListeners, logs)
    {
      logs := [];
      NotifyLogListeners();
      changeNotifications := changeNotifications + 1;
    }

    /** `addLogListener`: appends the listener (a second registration is kept too). */
    method AddLogListener(listener: LogListener)
      modifies this`logListeners
      ensures logListeners == old(logListeners) + [listener]
      ensures Occurrences(logListeners, listener) == Occurrences(old(logListeners), listener) + 1
    {
      logListeners := logListeners + [listener];
      assert logListeners[..|logListeners| - 1] == old(logListeners);
    }

    /** `removeLogListener`: drops the first registration of the listener, if any. */
    method RemoveLogListener(listener: LogListener)
      modifies this`logListeners
      ensures logListeners == RemoveFirst(old(logListeners), listener)
    {
      logListeners := RemoveFirst(logListeners, listener);
    }

    /** The logging that `_handleMessage` does first: remember the message as the last
        one, count it, log it, notify the log listeners. */
    method HandleMessage(message: string)
      requires Valid()
      modifies this, logListeners
      ensures Valid()
      ensures lastMessage == Some(message)
      ensures receivedCount == old(receivedCount) + 1
      ensures logs == old(logs) + [LogLine(Received(message))]
      ensures sentFrames == old(sentFrames) && sentCount == old(sentCount)
      ensures errorMessage == old(errorMessage) && changeNotifications == old(changeNotifications)
      ensures hasSocket == old(hasSocket) && isConnected == old(isConnected)
      ensures logListeners == old(logListeners)
      ensures ListenersGot(logListeners, logs)
    {
      var line := LogLine(Received(message));
      AppendLogLine(logs, Received(message));
      lastMessage := Some(message);
      receivedCount := receivedCount + 1;
      logs := logs + [line];
      assert Valid();
      NotifyLogListeners();
    }
  }

  // The sysinfo upTime coercion.

  /** A decoded JSON value, as far as the coercion tells values apart. */
  datatype Json = JString(s: string) | JInt(i: int) | JNull | JOther

  /** In a `sysinfo` message, an `upTime` given as a string is replaced by
      `int.tryParse(upTime) ?? 0`; every other message and every other entry is left
      as it was. */
  function CoerceSysinfo(msg: map<string, Json>): (r: map<string, Json>)
    ensures r.Keys == msg.Keys
    ensures forall k :: k in msg && k != "upTime" ==> r[k] == msg[k]
    ensures "upTime" in r && r["upTime"].JString? ==> !IsSysinfo(msg)
    ensures !IsSysinfo(msg) ==> r == msg
    ensures IsSysinfo(msg) && "upTime" in msg && msg["upTime"].JString? ==>
      r["upTime"] == JInt(match TryParse(msg["upTime"].s) case Some(n) => n case None => 0)
  {
    if IsSysinfo(msg) && "upTime" in msg && msg["upTime"].JString? then
      msg["upTime" := JInt(match TryParse(msg["upTime"].s) case Some(n) => n case None => 0)]
    else msg
  }

  predicate IsSysinfo(msg: map<string, Json>)
  {
    "c" in msg && msg["c"] == JString("sysinfo")
  }

  /** Coercing twice is coercing once. */
  lemma CoerceIdempotent(msg: map<string, Json>)
    ensures CoerceSysinfo(CoerceSysinfo(msg)) == CoerceSysinfo(msg)
  {
  }

  /** An uptime sent as the decimal text of a 64-bit integer arrives as that integer. */
  lemma CoercePrintedUptime(msg: map<string, Json>, n: int)
    requires IsSysinfo(msg) && Int64Min <= n <= Int64Max
    ensures CoerceSysinfo(msg["upTime" := JString(IntToDecimal(n))])["upTime"] == JInt(n)
  {
    ParsePrinted(n);
  }

  /** `SystemInfo.fromJson`'s `upTime`: a string goes through `int.tryParse` with 0 as
      fallback, null becomes 0, an integer is taken as it is; any other value makes the
      assignment to the `int` field throw (None). */
  function UpTimeField(v: Json): (r: Option<int>)
    ensures r.None? <==> v.JOther?
    ensures v.JInt? ==> r == Some(v.i)
  {
    match v
    case JString(s) => Some(match TryParse(s) case Some(n) => n case None => 0)
    case JInt(n) => Some(n)
    case JNull => Some(0)
    case JOther => None
  }

  /** The provider's coercion and the model's parsing agree: `fromJson` reads the same
      uptime from a coerced message as from the message as received. */
  lemma CoercionAgreesWithFromJson(msg: map<string, Json>)
    requires "upTime" in msg
    ensures UpTimeField(CoerceSysinfo(msg)["upTime"]) == UpTimeField(msg["upTime"])
  {
  }
}
