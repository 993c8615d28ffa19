# Cypher Chat front end: room names, live statistics, connection debugger

This project models the three pieces of the Cypher Chat web front end that
carry logic of their own, and proves what they promise.

- **Jitsi room names** (`JitsiRoom`, in `jitsi_room.dfy`). The video-call
  widget chooses a room by precedence. A non-empty `roomName` prop wins and
  is reduced to letters, digits, `-` and `_`, then cut to 50 characters.
  Otherwise the widget generates a name. A session with a one-to-one partner
  gives `cypher-private-` and the two user names in sorted order. A session
  without one gives `cypher-secure-` and the session id. With no session,
  the base is `cypher-secure-` and the target user, or `default`. The base is
  sanitised and cut to 30 characters. Then come the clock in base 36 and
  eight base-36 characters made from eight random bytes. The clock reading
  and the bytes are parameters. Two participants of a one-to-one call get
  the same room when they also share the clock reading and the eight-character
  random suffix. Each participant reads its own clock and draws its own bytes.
- **Live statistics** (`RealtimeStats`, in `realtime_stats.dfy`).
  `formatUptime` turns milliseconds into `HH:MM:SS`. Each two-second poll
  updates the panel in one of two ways. A successful reply is merged over
  the previous record. The rate is then the growth of the message count
  since the last successful poll, never negative. A thrown poll replaces the
  record with simulated figures. The reply, the clock and the random draws
  are parameters.
- **Connection debugger** (`ConnectionDebug`, in `connection_debug.dfy`).
  This is a singleton object with a `backend` flag, a `socket` flag, a
  timestamp and an append-only error log. Each test sets its flag from its
  outcome. A backend test that throws, and a socket test that does not
  connect, append exactly one message; a backend response with `ok` false
  logs nothing. `resetErrors` empties the log. Outcomes of the network tests are parameters. Each
  method of the class is proved against a transition function on the status
  record. Lemmas over sequences of calls relate those functions.
- `JsText` (`js_text.dfy`) holds the JavaScript behaviour the three rely
  on. It covers `toString(radix)` with its inverse, `padStart`,
  `substring(0, n)`, string `<`, and the default `sort` of a pair.

## Model

| member | source | states |
|---|---|---|
| `JsText.NatToRadix` | Frontend/components/jitsi-video-call.tsx:103 | `n.toString(radix)` is non-empty, uses only digits of the radix, and has no leading zero unless it is `0` |
| `JsText.RadixRoundTrip` | Frontend/components/jitsi-video-call.tsx:103 | reading a number's radix digits back gives the number, so the clock part of a room name determines the clock reading |
| `JsText.ByteInBase36` | Frontend/components/jitsi-video-call.tsx:107 | a byte in base 36 has one digit below 36 and two from 36 to 255 |
| `JsText.PadStart` | Frontend/components/ui/realtime-stats.tsx:72 | `padStart` yields at least the target length, keeps the original at the end, and fills only on the left |
| `JsText.Substring0` | Frontend/components/jitsi-video-call.tsx:100 | `substring(0, n)` is a prefix of the input of length min(length, n) |
| `JsText.LessTrichotomy` | Frontend/components/jitsi-video-call.tsx:111 | string `<` orders any two different strings one way and not the other |
| `JsText.LessIrreflexive` | Frontend/components/jitsi-video-call.tsx:111 | no string is `<` itself |
| `JsText.SortPairSymmetric` | Frontend/components/jitsi-video-call.tsx:111 | `[a, b].sort()` is the same for `[b, a]`, holds both strings, and puts them in order |
| `JsText.IntToRadix` | Frontend/components/jitsi-video-call.tsx:103 | `Date.now().toString(36)`: a minus sign for a negative value, then the digits of `NatToRadix` |
| `JsText.Less` | Frontend/components/jitsi-video-call.tsx:111 | string `<` as the default sort uses it; its order is proved in `LessIrreflexive` and `LessTrichotomy` |
| `JsText.SortPair` | Frontend/components/jitsi-video-call.tsx:111 | `[a, b].sort()` swaps the pair exactly when `b < a`; its properties are proved in `SortPairSymmetric` |
| `JitsiRoom.Sanitize` | Frontend/components/jitsi-video-call.tsx:100 | removing every character outside `[A-Za-z0-9_-]` leaves only room characters and never lengthens the text |
| `JitsiRoom.BaseName` | Frontend/components/jitsi-video-call.tsx:110-126 | the unsanitised base of a generated name for each branch, with `PairName` for `[username, targetUserId].sort().join('-')`; its precedence is proved in `SessionRoomIgnoresUsers`, `PrivateRoomIgnoresSession` and `FallbackIgnoresCaller` |
| `JitsiRoom.BytesInBase36` | Frontend/components/jitsi-video-call.tsx:107 | each byte in base 36, joined; its length is proved in `BytesInBase36Length` |
| `JitsiRoom.SecureRandom` | Frontend/components/jitsi-video-call.tsx:104-107 | the joined bytes cut to eight characters; its shape is proved in `SecureRandomShape` |
| `JitsiRoom.Generated` | Frontend/components/jitsi-video-call.tsx:114 | base sanitised and cut to 30, clock, random suffix, joined by `-`; its shape is proved in `GeneratedShape`, `GeneratedPrefix` and `GeneratedIsRoomText` |
| `JitsiRoom.SanitizeKeepsEveryRoomChar` | Frontend/components/jitsi-video-call.tsx:100 | each room character survives as many times as it occurs; every other character is removed |
| `JitsiRoom.SanitizeKeepsRoomText` | Frontend/components/jitsi-video-call.tsx:100 | text made only of room characters is returned unchanged |
| `JitsiRoom.SanitizeIdempotent` | Frontend/components/jitsi-video-call.tsx:100 | sanitising twice equals sanitising once |
| `JitsiRoom.SanitizeConcat` | Frontend/components/jitsi-video-call.tsx:114 | sanitising a concatenation sanitises each part |
| `JitsiRoom.RoomName` | Frontend/components/jitsi-video-call.tsx:97-128 | every room name, in every branch, uses only letters, digits, `-` and `_`; an explicit name is the first min(50, length) characters of its sanitised form |
| `JitsiRoom.ValidExplicitNameUnchanged` | Frontend/components/jitsi-video-call.tsx:100 | a valid explicit name of at most 50 characters is used unchanged |
| `JitsiRoom.ExplicitNameIdempotent` | Frontend/components/jitsi-video-call.tsx:100 | a derived explicit name passed back as `roomName` gives itself again |
| `JitsiRoom.ExplicitNameWins` | Frontend/components/jitsi-video-call.tsx:98-100 | with a non-empty `roomName`, the session, users, clock and bytes do not affect the room |
| `JitsiRoom.EmptyMeansAbsent` | Frontend/components/jitsi-video-call.tsx:98-126 | an empty `roomName`, `sessionId` or `targetUserId` behaves exactly like a missing one |
| `JitsiRoom.SessionRoomIgnoresUsers` | Frontend/components/jitsi-video-call.tsx:101-117 | without `roomName`, a session outranks the target user: outside a one-to-one call the room does not depend on `username` or `targetUserId` |
| `JitsiRoom.PrivateRoomIgnoresSession` | Frontend/components/jitsi-video-call.tsx:110-114 | a one-to-one call with a session is named after its users: any other non-empty `sessionId` gives the same room |
| `JitsiRoom.FallbackIgnoresCaller` | Frontend/components/jitsi-video-call.tsx:119-127 | without `roomName` or a session, the room does not depend on `username` or `isGroupCall` |
| `JitsiRoom.PrivateRoomSymmetric` | Frontend/components/jitsi-video-call.tsx:110-114 | swapping `username` and `targetUserId` in a one-to-one call gives the same room for the same clock and bytes |
| `JitsiRoom.GeneratedShape` | Frontend/components/jitsi-video-call.tsx:103-117 | a generated name is S, `-`, the clock in base 36, `-`, R; S is the sanitised base cut to at most 30 characters; R has exactly 8 base-36 digits |
| `JitsiRoom.GeneratedPrefix` | Frontend/components/jitsi-video-call.tsx:110-127 | a generated name starts with `cypher-private-` for a one-to-one call with a session, and with `cypher-secure-` otherwise |
| `JitsiRoom.FallbackDefault` | Frontend/components/jitsi-video-call.tsx:119-127 | with no room name, session or target user, the name starts with the base `cypher-secure-default` |
| `JitsiRoom.BytesInBase36Length` | Frontend/components/jitsi-video-call.tsx:105-107 | the joined base-36 bytes are base-36 digits, between one and two per byte |
| `JitsiRoom.SecureRandomShape` | Frontend/components/jitsi-video-call.tsx:105-107 | the random part has base-36 digits only, at most 8, and exactly 8 when eight bytes are drawn |
| `JitsiRoom.GeneratedIsRoomText` | Frontend/components/jitsi-video-call.tsx:114 | the generated name, with its clock and random parts, uses only room characters |
| `RealtimeStats.FormatUptime` | Frontend/components/ui/realtime-stats.tsx:67-73 | `formatUptime` with JavaScript's floor division, truncating `%` (`JsRem`) and `toString().padStart(2, '0')` (`Pad2`); its meaning is proved in `UptimeRoundTrip`, `UptimeSameSecond` and `UptimeColons` |
| `RealtimeStats.Merge` | Frontend/components/ui/realtime-stats.tsx:38-42 | the server's fields over the previous record, with the rate from the previous count; its effect is proved in `MergeStep` |
| `RealtimeStats.Simulate` | Frontend/components/ui/realtime-stats.tsx:47-54 | the simulated record from five random draws and the elapsed time; its ranges are proved in `FallbackStep` and `FallbackUptime` |
| `RealtimeStats.FetchStats` | Frontend/components/ui/realtime-stats.tsx:32-56 | one poll: merge on an `ok` reply, nothing on a reply without `ok`, simulate on a throw; runs of it are the subject of the run lemmas below |
| `RealtimeStats.UptimeFields` | Frontend/components/ui/realtime-stats.tsx:67-73 | for ms ≥ 0 the fields are floor(ms/3600000) unwrapped, floor(ms/60000) mod 60 and floor(ms/1000) mod 60, each padded to two digits |
| `RealtimeStats.Pad2Value` | Frontend/components/ui/realtime-stats.tsx:72 | a padded field is all decimal digits, at least 2 long, exactly 2 below 100, and reads back to its number |
| `RealtimeStats.UptimeRoundTrip` | Frontend/components/ui/realtime-stats.tsx:67-73 | for ms ≥ 0, reading the formatted uptime back gives floor(ms/1000): only the milliseconds are lost |
| `RealtimeStats.ReadUptime` | Frontend/components/ui/realtime-stats.tsx:71 | three fields padded to two digits (minutes and seconds below 60) read back as hours*3600 + minutes*60 + seconds |
| `RealtimeStats.UptimeSameSecond` | Frontend/components/ui/realtime-stats.tsx:68-72 | for ms ≥ 0, two durations format the same exactly when they share floor(ms/1000) |
| `RealtimeStats.UptimeUnderASecond` | Frontend/components/ui/realtime-stats.tsx:67-73 | any duration under one second, 0 included, formats as `00:00:00`, the panel's initial uptime (line 25) |
| `RealtimeStats.NegativeUptime` | Frontend/components/ui/realtime-stats.tsx:67-72 | a negative duration, from a clock that moved back, formats with a leading `-` |
| `RealtimeStats.UptimeColons` | Frontend/components/ui/realtime-stats.tsx:72 | the formatted uptime contains exactly two `:` for every duration |
| `RealtimeStats.MergeStep` | Frontend/components/ui/realtime-stats.tsx:36-43 | after a successful poll the rate is max(0, total − previous count) and is positive exactly when the count grew; the server's own rate has no effect; the count is remembered; sent fields replace old ones |
| `RealtimeStats.FallbackStep` | Frontend/components/ui/realtime-stats.tsx:45-54 | a thrown poll adds 1..5 messages; users are 25..74, rate 1..3, sessions 5..19, response time 20..69; the remembered count and the mount time are unchanged |
| `RealtimeStats.FallbackUptime` | Frontend/components/ui/realtime-stats.tsx:53 | when the clock has not moved back, the simulated update shows the whole seconds elapsed since the panel was mounted |
| `RealtimeStats.RunRemembersLastServerCount` | Frontend/components/ui/realtime-stats.tsx:31-65 | after any run of polls the remembered count is that of the last successful poll, or the initial one if none succeeded |
| `RealtimeStats.FallbackRunGrows` | Frontend/components/ui/realtime-stats.tsx:47-54 | n consecutive thrown polls raise the message count by at least n and at most 5n |
| `RealtimeStats.RatesTelescope` | Frontend/components/ui/realtime-stats.tsx:38-43 | over successful polls with non-decreasing counts, the rates shown add up to the count's total growth |
| `ConnectionDebug.AfterBackendTest` | Frontend/lib/connection-debug.ts:36-49 | the status after a backend test: `backend` from `response.ok`, or false and one logged message on a throw; the class method is proved against it |
| `ConnectionDebug.AfterSocketTest` | Frontend/lib/connection-debug.ts:63-98 | the status after a socket test: `socket` true on connect, otherwise false and one logged message; the class method is proved against it |
| `ConnectionDebug.SocketTestAsWritten` | Frontend/lib/connection-debug.ts:60-105 | the socket test as written, where a setup throw rejects the call; compared with the intended behaviour in `SetupThrowSkipsCatch` |
| `ConnectionDebug.ConnectionDebugger.constructor` | Frontend/lib/connection-debug.ts:12-17 | a new debugger has both flags false and an empty log |
| `ConnectionDebug.ConnectionDebugger.TestBackendConnection` | Frontend/lib/connection-debug.ts:26-58 | a response sets `backend` to its `ok` and returns it, logging nothing even when not ok; an exception sets `backend` false, appends one `Backend connection failed: …` message, and returns false |
| `ConnectionDebug.ConnectionDebugger.TestSocketConnection` | Frontend/lib/connection-debug.ts:60-106 | a connect sets `socket`, returns true and logs nothing; `connect_error`, the timeout or a setup throw clear `socket`, append exactly one message (`Socket connection timeout` for the timeout), and return false |
| `ConnectionDebug.ConnectionDebugger.GetConnectionStatus` | Frontend/lib/connection-debug.ts:108-113 | reports the current flags and log with the current time, changing nothing |
| `ConnectionDebug.ConnectionDebugger.ResetErrors` | Frontend/lib/connection-debug.ts:115-118 | empties the log, stamps the time, and leaves both flags as they were |
| `ConnectionDebug.InstanceSlot.GetInstance` | Frontend/lib/connection-debug.ts:19-24 | the first call creates a fresh debugger; every later call returns that same object unchanged |
| `ConnectionDebug.LoadModule` | Frontend/lib/connection-debug.ts:141 | the exported `connectionDebugger` is the object every later `getInstance()` returns |
| `ConnectionDebug.SetupThrowSkipsCatch` | Frontend/lib/connection-debug.ts:60-105 | as written, the socket test matches the intended behaviour on every event, but a throw from `io.on` rejects the call and logs nothing, where the `catch` block would return false and log one message |
| `ConnectionDebug.SetupThrowExample` | Frontend/lib/connection-debug.ts:62-98 | for an `io` without `on`, the written test rejects; the intended one logs `Socket connection test error: io.on is not a function` |
| `ConnectionDebug.LogOnlyGrows` | Frontend/lib/connection-debug.ts:46-98 | without a reset, the log only grows at its end, by exactly one message per failing test |
| `ConnectionDebug.LogSinceReset` | Frontend/lib/connection-debug.ts:115-118 | after a reset, the log holds exactly the messages logged since |
| `ConnectionDebug.BackendIsLastVerdict` | Frontend/lib/connection-debug.ts:36-47 | `backend` always equals the verdict of the last backend test; socket tests and resets leave it alone |
| `ConnectionDebug.CheckConnection` | Frontend/components/connection-status.tsx:21-46 | reset then test: the debugger's new status is the backend test applied to flags kept, an empty log and the reset time; the banner shows that log, empty after any response and exactly the one exception message after a throw |

## Left out

- The Jitsi lifecycle is not modelled: script loading, `JitsiMeetExternalAPI`, the configuration objects, event listeners, the 30-second timeout, dispose, hang-up and the toggle commands. They delegate to a third-party SDK through callbacks and timers.
- `Date.now()`, `crypto.getRandomValues` and `Math.random()` are parameters. The random draws are integers in the ranges `Math.floor(Math.random() * k)` yields.
- `JsText.Less`: compares Unicode code points. JavaScript compares UTF-16 code units, so characters above U+FFFF sort differently against U+E000–U+FFFF.
- `RealtimeStats.FormatUptime`: exact on integers. Floating-point rounding of `ms / 1000` for durations beyond 2^53 ms is not modelled.
- `RealtimeStats.Merge`: the reply is a record of the panel's six fields, with `totalMessages` always a number. Extra JSON fields spread into the state, and a missing `totalMessages` (which makes the rate `NaN`), are not modelled.
- The statistics display abbreviation `(value/1000).toFixed(1)+"k"` is floating-point formatting and is not modelled.
- Polling intervals, overlapping `fetchStats` calls, and the effect re-running when `previousMessageCount` changes are scheduling concerns. The model applies one poll at a time.
- `fetch`, `AbortController` and the socket library are not modelled; their results arrive as outcome parameters. The `timeout: 5000` passed to `fetch` is not a `fetch` option and has no effect, so no backend timeout is modelled.
- Late events are not modelled. These are a socket event after the timer has settled the test, and the timer that still fires after a setup throw. Each test has a single outcome.
- `ConnectionDebug.ConnectionDebugger.GetConnectionStatus`: returns a value. In the source, the returned object shares the `errors` array, so later appends show through it until the next `resetErrors`.
- `logFullStatus` and every `DEBUG_CONNECTION` branch only write to the console and change no state.
- `Date` timestamps are integer clock readings.
- Animation, three.js scenes, text morphing, scroll effects and all presentational components are rendering only.
- The socket debug pages, the connection-test page, `Backend/test-cors.js`, `lib/config.ts` and `debug-info.tsx` are not modelled. They are UI around library callbacks, a CORS smoke test, or environment reads.

## Findings

| source | as written | input that shows it | evidently intended | confidence | as-written member | corrected member |
|---|---|---|---|---|---|---|
| Frontend/lib/connection-debug.ts:60-105 | `io.on` is called inside the executor of `new Promise`, which is returned without `await`. A throw there rejects the returned promise, so the `catch` at lines 95-105 never runs. | `testSocketConnection` with an `io` that has no `on` method | resolve `false`, clear `socket`, and append `Socket connection test error: <message>` | high, not executed | `ConnectionDebug.SocketTestAsWritten`, exhibited by `ConnectionDebug.SetupThrowSkipsCatch` and `ConnectionDebug.SetupThrowExample` | `ConnectionDebug.ConnectionDebugger.TestSocketConnection` (via `ConnectionDebug.AfterSocketTest`) |
