/** How the video-call widget names the Jitsi room it opens
    (`loadJitsi` in Frontend/components/jitsi-video-call.tsx). The clock
    reading `Date.now()` and the eight bytes from `crypto.getRandomValues`
    are parameters. */
module JitsiRoom {
  import opened Wrappers
  import opened JsText

  /** A byte, as an element of a `Uint8Array`. */
  type Byte = b: int | 0 <= b < 256

  const PrivatePrefix: string := "cypher-private-"
  const SecurePrefix: string := "cypher-secure-"
  const DefaultTarget: string := "default"
  /** Longest explicit room name kept. */
  const ExplicitLimit: nat := 50
  /** Longest sanitised base kept in a generated name. */
  const BaseLimit: nat := 30
  /** Length of the random suffix of a generated name. */
  const RandomLimit: nat := 8

  /** The props that decide the room name. An optional string prop is `None`
      when the caller leaves it out; `username` and `isGroupCall` already hold
      the component's defaults (`'User'` and `false`). */
  datatype CallProps = CallProps(
    roomName: Option<string>,
    sessionId: Option<string>,
    targetUserId: Option<string>,
    username: string,
    isGroupCall: bool)

  /** JavaScript truthiness of an optional string: present and not empty. */
  predicate Truthy(o: Option<string>) { o.Some? && o.value != "" }

  /** The characters the pattern `/[^a-zA-Z0-9-_]/g` does not match. */
  predicate IsRoomChar(c: char)
  {
    ('a' <= c <= 'z') || ('A' <= c <= 'Z') || ('0' <= c <= '9') || c == '-' || c == '_'
  }

  predicate IsRoomText(s: string) { forall i :: 0 <= i < |s| ==> IsRoomChar(s[i]) }

  /** `s.replace(/[^a-zA-Z0-9-_]/g, '')`: every other character is dropped. */
  function Sanitize(s: string): (r: string)
    ensures IsRoomText(r)
    ensures |r| <= |s|
  {
    if s == [] then "" else (if IsRoomChar(s[0]) then [s[0]] else "") + Sanitize(s[1..])
  }

  /** `Array.from(bytes, b => b.toString(36)).join('')`. */
  function BytesInBase36(bytes: seq<Byte>): string
  {
    if bytes == [] then "" else NatToRadix(bytes[0], 36) + BytesInBase36(bytes[1..])
  }

  /** The random suffix: the bytes in base 36, cut to eight characters. */
  function SecureRandom(bytes: seq<Byte>): string
  {
    Substring0(BytesInBase36(bytes), RandomLimit)
  }

  /** Whether a call gets a private room named after both users. */
  predicate IsPrivateCall(p: CallProps)
  {
    !p.isGroupCall && Truthy(p.targetUserId) && p.username != ""
  }

  /** The unsanitised base of a generated name: the two user names in sorted
      order for a one-to-one call with a session, the session id for any other
      call with a session, and the target user (or `default`) without one. */
  function BaseName(p: CallProps): string
  {
    if Truthy(p.sessionId) then
      if IsPrivateCall(p) then
        PrivatePrefix + PairName(p.username, p.targetUserId.value)
      else
        SecurePrefix + p.sessionId.value
    else
      SecurePrefix + (if Truthy(p.targetUserId) then p.targetUserId.value else DefaultTarget)
  }

  /** `[a, b].sort().join('-')`. */
  function PairName(a: string, b: string): string
  {
    var ids := SortPair(a, b);
    ids[0] + "-" + ids[1]
  }

  /** A generated name: sanitised base cut to 30 characters, the clock in base
      36, the random suffix, joined by `-`. */
  function Generated(base: string, now: int, bytes: seq<Byte>): string
  {
    Substring0(Sanitize(base), BaseLimit) + "-" + IntToRadix(now, 36) + "-" + SecureRandom(bytes)
  }

  /** The room the widget joins. Whatever the props, the name is made only of
      letters, digits, `-` and `_`; an explicit name is a prefix of its
      sanitised form and at most 50 characters long. */
  function RoomName(p: CallProps, now: int, bytes: seq<Byte>): (room: string)
    ensures IsRoomText(room)
    ensures Truthy(p.roomName) ==>
      |room| == Min(|Sanitize(p.roomName.value)|, ExplicitLimit) && room <= Sanitize(p.roomName.value)
  {
    if Truthy(p.roomName) then
      Substring0(Sanitize(p.roomName.value), ExplicitLimit)
    else
      GeneratedIsRoomText(BaseName(p), now, bytes);
      Generated(BaseName(p), now, bytes)
  }

  // ---------------------------------------------------------------------
  // Sanitising

  lemma {:induction false} SanitizeConcat(a: string, b: string)
    ensures Sanitize(a + b) == Sanitize(a) + Sanitize(b)
    decreases |a|
  {
    if a != [] {
      assert (a + b)[1..] == a[1..] + b;
      SanitizeConcat(a[1..], b);
    } else {
      assert a + b == b;
    }
  }

  /** Text already made of room characters passes through unchanged. */
  lemma {:induction false} SanitizeKeepsRoomText(s: string)
    requires IsRoomText(s)
    ensures Sanitize(s) == s
    decreases |s|
  {
    if s != [] {
      SanitizeKeepsRoomText(s[1..]);
    }
  }

  /** Sanitising twice is sanitising once. */
  lemma SanitizeIdempotent(s: string)
    ensures Sanitize(Sanitize(s)) == Sanitize(s)
  {
    SanitizeKeepsRoomText(Sanitize(s));
  }

  /** Every room character of `s` survives as often as it occurs, and no
      other character does. */
  lemma {:induction false} SanitizeKeepsEveryRoomChar(s: string, c: char)
    ensures multiset(Sanitize(s))[c] == if IsRoomChar(c) then multiset(s)[c] else 0
    decreases |s|
  {
    if s != [] {
      SanitizeKeepsEveryRoomChar(s[1..], c);
      assert s == [s[0]] + s[1..];
    }
  }

  // ---------------------------------------------------------------------
  // The random suffix

  /** Each byte takes one or two base-36 digits. */
  lemma {:induction false} BytesInBase36Length(bytes: seq<Byte>)
    ensures |bytes| <= |BytesInBase36(bytes)| <= 2 * |bytes|
    ensures forall i :: 0 <= i < |BytesInBase36(bytes)| ==> IsDigitIn(BytesInBase36(bytes)[i], 36)
    decreases |bytes|
  {
    if bytes != [] {
      ByteInBase36(bytes[0]);
      BytesInBase36Length(bytes[1..]);
      var head, tail := NatToRadix(bytes[0], 36), BytesInBase36(bytes[1..]);
      assert BytesInBase36(bytes) == head + tail;
      forall i | 0 <= i < |head + tail| ensures IsDigitIn((head + tail)[i], 36) {
        if i < |head| {
          assert (head + tail)[i] == head[i];
        } else {
          assert (head + tail)[i] == tail[i - |head|];
        }
      }
    }
  }

  /** The random suffix holds base-36 digits only, never more than eight, and
      exactly eight when at least eight bytes are drawn (the widget draws
      eight). */
  lemma SecureRandomShape(bytes: seq<Byte>)
    ensures |SecureRandom(bytes)| <= RandomLimit
    ensures forall i :: 0 <= i < |SecureRandom(bytes)| ==> IsDigitIn(SecureRandom(bytes)[i], 36)
    ensures |bytes| >= RandomLimit ==> |SecureRandom(bytes)| == RandomLimit
  {
    BytesInBase36Length(bytes);
    var all := BytesInBase36(bytes);
    var r := SecureRandom(bytes);
    forall i | 0 <= i < |r| ensures IsDigitIn(r[i], 36) {
      assert r[i] == all[i];
    }
  }

  lemma DigitIsRoomChar(c: char)
    requires IsDigitIn(c, 36)
    ensures IsRoomChar(c)
  {
  }

  lemma IntToRadixIsRoomText(n: int)
    ensures IsRoomText(IntToRadix(n, 36))
  {
    var digits := NatToRadix(if n < 0 then -n else n, 36);
    forall i | 0 <= i < |digits| ensures IsRoomChar(digits[i]) {
      DigitIsRoomChar(digits[i]);
    }
    if n < 0 {
      var s := IntToRadix(n, 36);
      assert s == "-" + digits;
      forall i | 0 <= i < |s| ensures IsRoomChar(s[i]) {
        if i > 0 {
          assert s[i] == digits[i - 1];
        }
      }
    }
  }

  lemma ConcatRoomText(a: string, b: string)
    requires IsRoomText(a) && IsRoomText(b)
    ensures IsRoomText(a + b)
  {
    forall i | 0 <= i < |a + b| ensures IsRoomChar((a + b)[i]) {
      if i < |a| {
        assert (a + b)[i] == a[i];
      } else {
        assert (a + b)[i] == b[i - |a|];
      }
    }
  }

  lemma GeneratedIsRoomText(base: string, now: int, bytes: seq<Byte>)
    ensures IsRoomText(Generated(base, now, bytes))
  {
    var s := Substring0(Sanitize(base), BaseLimit);
    assert IsRoomText(s) by {
      forall i | 0 <= i < |s| ensures IsRoomChar(s[i]) {
        assert s[i] == Sanitize(base)[i];
      }
    }
    IntToRadixIsRoomText(now);
    SecureRandomShape(bytes);
    var r := SecureRandom(bytes);
    forall i | 0 <= i < |r| ensures IsRoomChar(r[i]) {
      DigitIsRoomChar(r[i]);
    }
    ConcatRoomText(s, "-");
    ConcatRoomText(s + "-", IntToRadix(now, 36));
    ConcatRoomText(s + "-" + IntToRadix(now, 36), "-");
    ConcatRoomText(s + "-" + IntToRadix(now, 36) + "-", r);
  }

  // ---------------------------------------------------------------------
  // Properties of the room name

  /** A name that is already valid and at most 50 characters long is used as
      it is; in particular sanitising an explicit name is idempotent. */
  lemma ValidExplicitNameUnchanged(p: CallProps, now: int, bytes: seq<Byte>)
    requires Truthy(p.roomName) && IsRoomText(p.roomName.value)
    requires |p.roomName.value| <= ExplicitLimit
    ensures RoomName(p, now, bytes) == p.roomName.value
  {
    SanitizeKeepsRoomText(p.roomName.value);
  }

  /** Feeding an explicit room name's result back in as the room name gives
      the same name again. */
  lemma ExplicitNameIdempotent(p: CallProps, now: int, bytes: seq<Byte>)
    requires Truthy(p.roomName) && RoomName(p, now, bytes) != ""
    ensures RoomName(p.(roomName := Some(RoomName(p, now, bytes))), now, bytes) == RoomName(p, now, bytes)
  {
    var r := RoomName(p, now, bytes);
    ValidExplicitNameUnchanged(p.(roomName := Some(r)), now, bytes);
  }

  /** A non-empty explicit room name decides the room alone: the session, the
      users, the clock and the random bytes play no part. */
  lemma ExplicitNameWins(p: CallProps, q: CallProps, now: int, now': int, bytes: seq<Byte>, bytes': seq<Byte>)
    requires Truthy(p.roomName) && q.roomName == p.roomName
    ensures RoomName(p, now, bytes) == RoomName(q, now', bytes')
  {
  }

  /** An empty string counts as an absent prop, as in JavaScript truthiness. */
  lemma EmptyMeansAbsent(p: CallProps, now: int, bytes: seq<Byte>)
    ensures RoomName(p.(roomName := Some("")), now, bytes) == RoomName(p.(roomName := None), now, bytes)
    ensures RoomName(p.(sessionId := Some("")), now, bytes) == RoomName(p.(sessionId := None), now, bytes)
    ensures RoomName(p.(targetUserId := Some("")), now, bytes) == RoomName(p.(targetUserId := None), now, bytes)
  {
  }

  /** Without an explicit name, a session id outranks the target user: for
      a call that is not a one-to-one call, the session id alone names the
      room, whatever the users and the target. */
  lemma SessionRoomIgnoresUsers(p: CallProps, q: CallProps, now: int, bytes: seq<Byte>)
    requires !Truthy(p.roomName) && Truthy(p.sessionId) && !IsPrivateCall(p)
    requires q.roomName == p.roomName && q.sessionId == p.sessionId && !IsPrivateCall(q)
    ensures RoomName(p, now, bytes) == RoomName(q, now, bytes)
  {
  }

  /** A one-to-one call with a session is named after its two users: the
      value of the session id plays no part, only that it is present. */
  lemma PrivateRoomIgnoresSession(p: CallProps, session: string, now: int, bytes: seq<Byte>)
    requires !Truthy(p.roomName) && Truthy(p.sessionId) && IsPrivateCall(p) && session != ""
    ensures RoomName(p.(sessionId := Some(session)), now, bytes) == RoomName(p, now, bytes)
  {
  }

  /** Without an explicit name or a session, the room follows the target user
      alone: the caller's name and the group flag play no part. */
  lemma FallbackIgnoresCaller(p: CallProps, username: string, isGroupCall: bool, now: int, bytes: seq<Byte>)
    requires !Truthy(p.roomName) && !Truthy(p.sessionId)
    ensures RoomName(p.(username := username, isGroupCall := isGroupCall), now, bytes) == RoomName(p, now, bytes)
  {
  }

  /** Both participants of a one-to-one call derive the same room from the
      same clock reading and random bytes, whichever of them is `username`. */
  lemma PrivateRoomSymmetric(p: CallProps, now: int, bytes: seq<Byte>)
    requires !Truthy(p.roomName) && Truthy(p.sessionId) && IsPrivateCall(p)
    ensures var q := p.(username := p.targetUserId.value, targetUserId := Some(p.username));
      RoomName(q, now, bytes) == RoomName(p, now, bytes)
  {
    SortPairSymmetric(p.username, p.targetUserId.value);
  }

  /** A generated name is the sanitised base cut to 30 characters, a `-`, the
      clock in base 36, a `-`, and a suffix of exactly eight base-36 digits
      when eight bytes are drawn. */
  lemma GeneratedShape(p: CallProps, now: int, bytes: seq<Byte>)
    requires !Truthy(p.roomName) && |bytes| == RandomLimit
    ensures var s, r := Substring0(Sanitize(BaseName(p)), BaseLimit), SecureRandom(bytes);
      && RoomName(p, now, bytes) == s + "-" + IntToRadix(now, 36) + "-" + r
      && |s| <= BaseLimit
      && |r| == RandomLimit && (forall i :: 0 <= i < |r| ==> IsDigitIn(r[i], 36))
  {
    SecureRandomShape(bytes);
  }

  lemma PrefixSurvives(prefix: string, rest: string, now: int, bytes: seq<Byte>)
    requires IsRoomText(prefix) && |prefix| <= BaseLimit
    ensures |Generated(prefix + rest, now, bytes)| >= |prefix|
    ensures Generated(prefix + rest, now, bytes)[..|prefix|] == prefix
  {
    SanitizeConcat(prefix, rest);
    SanitizeKeepsRoomText(prefix);
    var cut := Substring0(Sanitize(prefix + rest), BaseLimit);
    assert |Sanitize(prefix + rest)| >= |prefix|;
    assert cut[..|prefix|] == prefix;
  }

  /** Every generated name starts with `cypher-private-` for a private call
      with a session and with `cypher-secure-` otherwise: both prefixes
      survive sanitising and the 30-character cut. */
  lemma GeneratedPrefix(p: CallProps, now: int, bytes: seq<Byte>)
    requires !Truthy(p.roomName)
    ensures var room := RoomName(p, now, bytes);
      if Truthy(p.sessionId) && IsPrivateCall(p)
      then |room| >= |PrivatePrefix| && room[..|PrivatePrefix|] == PrivatePrefix
      else |room| >= |SecurePrefix| && room[..|SecurePrefix|] == SecurePrefix
  {
    assert IsRoomText(PrivatePrefix) && IsRoomText(SecurePrefix);
    if Truthy(p.sessionId) && IsPrivateCall(p) {
      PrefixSurvives(PrivatePrefix, PairName(p.username, p.targetUserId.value), now, bytes);
    } else if Truthy(p.sessionId) {
      PrefixSurvives(SecurePrefix, p.sessionId.value, now, bytes);
    } else {
      PrefixSurvives(SecurePrefix, if Truthy(p.targetUserId) then p.targetUserId.value else DefaultTarget, now, bytes);
    }
  }

  /** With no room name, session or target user, the base is exactly
      `cypher-secure-default`. */
  lemma FallbackDefault(p: CallProps, now: int, bytes: seq<Byte>)
    requires !Truthy(p.roomName) && !Truthy(p.sessionId) && !Truthy(p.targetUserId)
    ensures RoomName(p, now, bytes) == "cypher-secure-default" + "-" + IntToRadix(now, 36) + "-" + SecureRandom(bytes)
  {
    var base := SecurePrefix + DefaultTarget;
    assert base == "cypher-secure-default";
    assert IsRoomText(base);
    SanitizeKeepsRoomText(base);
  }
}
