/** The Jellyfin tracker: counts the sessions active within the configured window and draws the
    count as a ramp bar, redrawing only when the count has changed. */
module JellyfinTrackers {
  import opened Primitives
  import opened Profiles
  import opened Devices
  import DriverProperties

  // ---------------------------------------------------------------------------------------
  // Counting active sessions

  /** One element of the /Sessions answer, as far as the count reads it. */
  datatype Session =
    | NoActivityDate        // the element has no LastActivityDate property
    | Unparsable            // its LastActivityDate is not a date DateTime.TryParse accepts
    | LastActive(time: int) // the parsed last activity, in milliseconds

  /** A session counts when its last activity is at or after the cutoff. */
  predicate IsActive(s: Session, cutoff: int)
  {
    s.LastActive? && s.time >= cutoff
  }

  /** The number of active sessions. */
  function ActiveCount(sessions: seq<Session>, cutoff: int): (n: nat)
    ensures n <= |sessions|
  {
    if sessions == [] then 0
    else ActiveCount(sessions[..|sessions| - 1], cutoff) + (if IsActive(sessions[|sessions| - 1], cutoff) then 1 else 0)
  }

  /** Counting distributes over concatenation of the session list. */
  lemma {:induction false} ActiveCountAppend(a: seq<Session>, b: seq<Session>, cutoff: int)
    ensures ActiveCount(a + b, cutoff) == ActiveCount(a, cutoff) + ActiveCount(b, cutoff)
    decreases |b|
  {
    if b == [] {
      assert a + b == a;
    } else {
      var b' := b[..|b| - 1];
      assert (a + b)[..|a + b| - 1] == a + b';
      assert (a + b)[|a + b| - 1] == b[|b| - 1];
      ActiveCountAppend(a, b', cutoff);
    }
  }

  /** The count is 0 exactly when no session is active, and |sessions| exactly when all are. */
  lemma {:induction false} ActiveCountExtremes(sessions: seq<Session>, cutoff: int)
    ensures ActiveCount(sessions, cutoff) == 0 <==> forall k :: 0 <= k < |sessions| ==> !IsActive(sessions[k], cutoff)
    ensures ActiveCount(sessions, cutoff) == |sessions| <==> forall k :: 0 <= k < |sessions| ==> IsActive(sessions[k], cutoff)
  {
    if sessions != [] {
      var init := sessions[..|sessions| - 1];
      ActiveCountExtremes(init, cutoff);
      assert forall k :: 0 <= k < |init| ==> init[k] == sessions[k];
    }
  }

  /** A later cutoff never counts more sessions. */
  lemma {:induction false} ActiveCountMonotone(sessions: seq<Session>, early: int, late: int)
    requires early <= late
    ensures ActiveCount(sessions, late) <= ActiveCount(sessions, early)
  {
    if sessions != [] {
      ActiveCountMonotone(sessions[..|sessions| - 1], early, late);
    }
  }

  /** What the GET /Sessions request ends with. */
  datatype SessionsReply =
    | TimedOut                        // TaskCanceledException caused by the client's timeout
    | Canceled                        // any other TaskCanceledException
    | Unsuccessful                    // a response whose status is not a success
    | Malformed                       // a successful response whose body is not a JSON array
    | Sessions(sessions: seq<Session>) // a successful response holding a JSON array

  /** IsJellyfinConfigured as written: true when the URL and the key are both empty. */
  function IsJellyfinConfiguredAsWritten(c: AppConfig): (configured: bool)
    ensures configured <==> |c.jellyfinUrl| == 0 && |c.jellyfinApiKey| == 0
  {
    c.jellyfinUrl == "" && c.jellyfinApiKey == ""
  }

  /** IsJellyfinConfigured as its name and the TrueNAS counterpart mean it: both set. */
  function IsJellyfinConfigured(c: AppConfig): (configured: bool)
    ensures configured <==> |c.jellyfinUrl| > 0 && |c.jellyfinApiKey| > 0
  {
    c.jellyfinUrl != "" && c.jellyfinApiKey != ""
  }

  /** The check as written reports the unconfigured default settings as configured and a
      fully configured server as not configured. */
  lemma JellyfinConfiguredInverted(url: string, key: string)
    requires url != "" && key != ""
    ensures IsJellyfinConfiguredAsWritten(DefaultConfig()) && !IsJellyfinConfigured(DefaultConfig())
    ensures var c := DefaultConfig().(jellyfinUrl := url, jellyfinApiKey := key);
      !IsJellyfinConfiguredAsWritten(c) && IsJellyfinConfigured(c)
  {
  }

  // ---------------------------------------------------------------------------------------
  // Display

  const ActiveUsersKey: string := "active_users"

  /** The index of the first item whose key is not "active_users", or |items|. */
  function FirstForeignKey(items: seq<ProfileItem>): (k: nat)
    ensures k <= |items|
    ensures forall j :: 0 <= j < k ==> items[j].statKey == Some(ActiveUsersKey)
    ensures k < |items| ==> items[k].statKey != Some(ActiveUsersKey)
  {
    if items == [] then 0
    else if items[0].statKey != Some(ActiveUsersKey) then 0
    else
      var k := FirstForeignKey(items[1..]);
      assert forall j :: 1 <= j < k + 1 ==> items[j] == items[1..][j - 1];
      k + 1
  }

  /** What Display does given the last drawn count: the new last drawn count and the
      rendering. Only the first "active_users" item can see a changed count, so at most one
      ramp bar is drawn, with clearing, at that item's column; an unknown key throws. */
  function DisplayEffect(last: int, count: int, items: seq<ProfileItem>): (r: (int, Rendering))
  {
    var k := FirstForeignKey(items);
    var redraw := k > 0 && last != count;
    (if k > 0 then count else last,
     Rendering(if redraw then [RampBar(ToByte(count), ToByte(items[0].posX), true)] else [],
               if k < |items| then Some(ArgumentError) else None))
  }

  /** A second Display with the same count draws nothing and throws as the first did. */
  lemma DisplayIdempotent(last: int, count: int, items: seq<ProfileItem>)
    ensures var (last', r) := DisplayEffect(last, count, items);
      DisplayEffect(last', count, items) == (last', Rendering([], r.fault))
  {
  }

  /** A bar is drawn exactly when the first item is an "active_users" item and the count
      differs from the last drawn one; afterwards the count is the last drawn one whenever an
      item was handled. */
  lemma DisplayDrawsOnChange(last: int, count: int, items: seq<ProfileItem>)
    ensures var (last', r) := DisplayEffect(last, count, items);
      (|r.calls| == 1 <==> |items| > 0 && items[0].statKey == Some(ActiveUsersKey) && last != count) &&
      |r.calls| <= 1 &&
      (r.fault.None? && |items| > 0 ==> last' == count) &&
      (r.fault.None? <==> forall j :: 0 <= j < |items| ==> items[j].statKey == Some(ActiveUsersKey))
  {
  }

  /** A count bar at a grid column always completes on the Launchpad Pro. */
  lemma CountBarFits(count: int, posX: int)
    requires 0 <= posX <= 9
    ensures CallFits(RampBar(ToByte(count), ToByte(posX), true))
  {
    DriverProperties.ClearingBarFits(ToByte(posX), ToByte(count));
  }

  class JellyfinTracker {
    /** The count last drawn; -1 until the first draw. */
    var lastCount: int
    /** The count of the last successful request. */
    var activeUserCount: int

    constructor ()
      ensures lastCount == -1 && activeUserCount == 0
    {
      lastCount := -1;
      activeUserCount := 0;
    }

    /** Count the sessions in `sessions` whose last activity is at or after `cutoff`. */
    static method CountActive(sessions: seq<Session>, cutoff: int) returns (userCount: int)
      ensures userCount == ActiveCount(sessions, cutoff)
    {
      userCount := 0;
      var i := 0;
      while i < |sessions|
        invariant 0 <= i <= |sessions|
        invariant userCount == ActiveCount(sessions[..i], cutoff)
      {
        assert sessions[..i + 1][..i] == sessions[..i];
        match sessions[i] {
          case NoActivityDate =>
          case Unparsable =>
          case LastActive(time) =>
            if time >= cutoff {
              userCount := userCount + 1;
            }
        }
        i := i + 1;
      }
      assert sessions[..i] == sessions;
    }

    /** GetActiveUserCountAsync: `now` is the clock reading the cutoff is taken from and
        `activeUserTime` the configured window. A timeout yields 0 and keeps the stored count;
        a successful reply stores and returns the count; anything else escapes. */
    method GetActiveUserCount(reply: SessionsReply, now: int, activeUserTime: int) returns (count: int, outcome: Outcome)
      modifies this`activeUserCount
      ensures reply.TimedOut? ==> count == 0 && outcome == Done && activeUserCount == old(activeUserCount)
      ensures reply.Sessions? ==>
        count == ActiveCount(reply.sessions, now - activeUserTime) && outcome == Done && activeUserCount == count
      ensures (reply.Canceled? || reply.Unsuccessful? || reply.Malformed?) ==>
        outcome == Thrown(Rethrown) && activeUserCount == old(activeUserCount)
    {
      match reply
      case TimedOut =>
        return 0, Done;
      case Canceled =>
        return 0, Thrown(Rethrown);
      case Unsuccessful =>
        return 0, Thrown(Rethrown);
      case Malformed =>
        return 0, Thrown(Rethrown);
      case Sessions(sessions) =>
        count := CountActive(sessions, now - activeUserTime);
        activeUserCount := count;
        outcome := Done;
    }

    /** Display(device, tracker): the calls made and the new last drawn count. */
    method Display(items: seq<ProfileItem>) returns (r: Rendering)
      modifies this`lastCount
      ensures (lastCount, r) == DisplayEffect(old(lastCount), activeUserCount, items)
    {
      var calls: seq<DrawCall> := [];
      var i := 0;
      while i < |items|
        invariant 0 <= i <= |items| && i <= FirstForeignKey(items)
        invariant lastCount == if i > 0 then activeUserCount else old(lastCount)
        invariant calls == if i > 0 && old(lastCount) != activeUserCount
          then [RampBar(ToByte(activeUserCount), ToByte(items[0].posX), true)] else []
      {
        if items[i].statKey != Some(ActiveUsersKey) {
          return Rendering(calls, Some(ArgumentError));
        }
        if lastCount != activeUserCount {
          lastCount := activeUserCount;
          calls := calls + [RampBar(ToByte(activeUserCount), ToByte(items[i].posX), true)];
        }
        i := i + 1;
      }
      r := Rendering(calls, None);
    }
  }
}
