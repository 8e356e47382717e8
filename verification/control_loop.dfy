/**
 * One tick of `main`'s control loop (src/main.py): drain the queued touch
 * actions through the per-name debounce, issue the playback commands they
 * stand for, and on a poll tick fetch the current track, fetch album art only
 * when the track changes, and redraw the display only when what it would show
 * changes. Times are integer milliseconds; the playback service is a
 * collaborator whose answers for the tick are parameters.
 */
module ControlLoop {
  import opened Wrappers
  import opened Bytes
  import Layout

  /** What the playback service reports about the current track. */
  datatype TrackInfo = TrackInfo(trackId: string, title: string, artist: string, artUrl: Option<string>, isPlaying: bool)

  /** The playback commands a touch action can issue. */
  datatype Command = TogglePlayPause | NextTrack | LikeCurrent

  /** The change-detection key `(track_id, is_playing, title, artist)`. */
  datatype RenderKey = RenderKey(trackId: string, isPlaying: bool, title: string, artist: string)

  /** The album art, as the bytes the service returned. */
  type Art = seq<byte>

  /** What a display write shows: `_render_layout`'s inputs. */
  datatype Screen = Screen(title: string, artist: string, art: Option<Art>, isPlaying: bool)

  const NoDeviceTitle: string := "No active device"
  const NoDeviceArtist: string := "Open Spotify on a device"
  const UnknownTitle: string := "Unknown title"
  const UnknownArtist: string := "Unknown artist"
  const NoTrackKey := RenderKey("none", false, NoDeviceTitle, NoDeviceArtist)

  /** The loop's variables between ticks. */
  datatype LoopState = LoopState(
    lastAction: map<string, int>,
    lastRenderKey: Option<RenderKey>,
    nextPoll: int,
    currentTrackId: Option<string>,
    currentArt: Option<Art>)

  /** The state before the first tick. */
  const Start := LoopState(map[], None, 0, None, None)

  /** What one tick does outside the loop's variables. */
  datatype TickOutput = TickOutput(commands: seq<Command>, artFetched: bool, displayed: Option<Screen>)

  /** `last_action.get(action, 0)`. */
  function LastFired(table: map<string, int>, action: string): int
  {
    if action in table then table[action] else 0
  }

  /** The command an action name issues; other names issue none. */
  function CommandFor(action: string): (r: seq<Command>)
    ensures |r| <= 1
  {
    if action == "Play/Pause" then [TogglePlayPause]
    else if action == "Next" then [NextTrack]
    else if action == "Like" then [LikeCurrent]
    else []
  }

  /** The three buttons of the layout issue the three commands, one each;
      touching the art, title or artist issues none. */
  lemma ButtonsIssueCommands()
    ensures CommandFor(Layout.Names[3]) == [TogglePlayPause]
    ensures CommandFor(Layout.Names[4]) == [NextTrack]
    ensures CommandFor(Layout.Names[5]) == [LikeCurrent]
    ensures forall i :: 0 <= i < 3 ==> CommandFor(Layout.Names[i]) == []
  {
  }

  /** Two tracks with the same key would be drawn the same way: the key
      holds everything the screen shows apart from the art. */
  lemma SameKeySameText(t1: Option<TrackInfo>, t2: Option<TrackInfo>, art1: Option<Art>, art2: Option<Art>)
    requires KeyFor(t1) == KeyFor(t2)
    ensures ScreenFor(t1, art1).(art := None) == ScreenFor(t2, art2).(art := None)
  {
    var a := ScreenFor(t1, art1);
    var b := ScreenFor(t2, art2);
    assert a.title == b.title && a.artist == b.artist && a.isPlaying == b.isPlaying;
  }

  /** The debounce table, the commands issued and the names accepted after
      draining a run of actions at time `now`. */
  datatype Drained = Drained(table: map<string, int>, commands: seq<Command>, accepted: seq<string>)

  /** An action passes the debounce when at least `debounce` ms have passed
      since its name last fired. */
  predicate Passes(table: map<string, int>, now: int, debounce: int, action: string)
  {
    now - LastFired(table, action) >= debounce
  }

  function Drain(table: map<string, int>, now: int, debounce: int, actions: seq<string>): Drained
    decreases |actions|
  {
    if actions == [] then Drained(table, [], [])
    else
      var d := Drain(table, now, debounce, actions[..|actions| - 1]);
      var action := actions[|actions| - 1];
      if !Passes(d.table, now, debounce, action) then d
      else Drained(d.table[action := now], d.commands + CommandFor(action), d.accepted + [action])
  }

  /** The screen and key for what the service reported. */
  function ScreenFor(track: Option<TrackInfo>, art: Option<Art>): (r: Screen)
    // the display never shows an empty title or artist line
    ensures r.title != "" && r.artist != ""
    ensures track.None? ==> r.art.None? && !r.isPlaying
    // a reported track is shown with its own text, play state and the art given
    ensures track.Some? ==> r.isPlaying == track.value.isPlaying && r.art == art
    ensures track.Some? && track.value.title != "" ==> r.title == track.value.title
    ensures track.Some? && track.value.title == "" ==> r.title == UnknownTitle
    ensures track.Some? && track.value.artist != "" ==> r.artist == track.value.artist
    ensures track.Some? && track.value.artist == "" ==> r.artist == UnknownArtist
  {
    match track
    case None => Screen(NoDeviceTitle, NoDeviceArtist, None, false)
    case Some(t) =>
      Screen(if t.title == "" then UnknownTitle else t.title,
             if t.artist == "" then UnknownArtist else t.artist,
             art, t.isPlaying)
  }

  function KeyFor(track: Option<TrackInfo>): (k: RenderKey)
    // a reported track is keyed by its own id; no track has the fixed key
    ensures track.Some? ==> k.trackId == track.value.trackId
    ensures track.None? ==> k == NoTrackKey
    // the key records exactly the text and play state the screen shows
    ensures forall art :: k.title == ScreenFor(track, art).title && k.artist == ScreenFor(track, art).artist
                       && k.isPlaying == ScreenFor(track, art).isPlaying
  {
    match track
    case None => NoTrackKey
    case Some(t) =>
      RenderKey(t.trackId, t.isPlaying,
                if t.title == "" then UnknownTitle else t.title,
                if t.artist == "" then UnknownArtist else t.artist)
  }

  /** The art kept for a newly seen track: what the service returned, unless
      it returned nothing or no bytes. */
  function KeptArt(art: Option<Art>): Option<Art>
  {
    if art.Some? && |art.value| > 0 then art else None
  }

  /** The state and output of the polling half of a tick. `track` is what
      the service reports if asked; `art` is what it returns if asked for the
      album art. */
  function Poll(s: LoopState, now: int, pollMs: int, track: Option<TrackInfo>, art: Option<Art>)
    : (LoopState, bool, Option<Screen>)
  {
    if now < s.nextPoll then (s, false, None)
    else
      var fetch := track.Some? && Some(track.value.trackId) != s.currentTrackId;
      var trackId := if track.None? then None else Some(track.value.trackId);
      var currentArt := if track.None? then None else if fetch then KeptArt(art) else s.currentArt;
      var key := KeyFor(track);
      var polled := s.(nextPoll := now + pollMs, currentTrackId := trackId, currentArt := currentArt);
      if Some(key) != s.lastRenderKey then
        (polled.(lastRenderKey := Some(key)), fetch, Some(ScreenFor(track, currentArt)))
      else (polled, fetch, None)
  }

  /** One tick of the control loop. */
  function Tick(
    s: LoopState, debounce: int, pollMs: int,
    now: int, actions: seq<string>, track: Option<TrackInfo>, art: Option<Art>): (LoopState, TickOutput)
  {
    var d := Drain(s.lastAction, now, debounce, actions);
    var drained := s.(lastAction := d.table, lastRenderKey := if d.accepted == [] then s.lastRenderKey else None);
    var p := Poll(drained, now, pollMs, track, art);
    (p.0, TickOutput(d.commands, p.1, p.2))
  }

  /** The commands the accepted names issue, in order. */
  function CommandsOf(accepted: seq<string>): seq<Command>
    decreases |accepted|
  {
    if accepted == [] then []
    else CommandsOf(accepted[..|accepted| - 1]) + CommandFor(accepted[|accepted| - 1])
  }

  /** `sub` is `s` with some elements left out: it picks elements of `s` at
      strictly increasing positions. */
  ghost predicate InOrder(sub: seq<string>, s: seq<string>)
  {
    exists idx: seq<int> :: Picks(idx, sub, s)
  }

  ghost predicate Picks(idx: seq<int>, sub: seq<string>, s: seq<string>)
  {
    && |idx| == |sub|
    && (forall k :: 0 <= k < |idx| ==> 0 <= idx[k] < |s| && sub[k] == s[idx[k]])
    && (forall k, l :: 0 <= k < l < |idx| ==> idx[k] < idx[l])
  }

  /** `d` accepted only queued names, in the order they were queued, and
      issued exactly their commands in that order. */
  ghost predicate KeepsSome(actions: seq<string>, d: Drained)
  {
    && |d.accepted| <= |actions|
    && (forall a :: a in d.accepted ==> a in actions)
    && InOrder(d.accepted, actions)
    && d.commands == CommandsOf(d.accepted)
  }

  /** `d.table` is `table` with exactly the accepted names stamped `now`. */
  ghost predicate StampsAccepted(table: map<string, int>, now: int, d: Drained)
  {
    && (forall a :: a in d.table <==> a in table || a in d.accepted)
    && (forall a :: a in d.accepted ==> LastFired(d.table, a) == now)
    && (forall a :: a !in d.accepted ==> LastFired(d.table, a) == LastFired(table, a))
  }

  ghost predicate NoRepeats(names: seq<string>)
  {
    forall i, j :: 0 <= i < j < |names| ==> names[i] != names[j]
  }

  /** Draining keeps some of the actions, in order, and issues exactly
      their commands. */
  lemma {:induction false} DrainCommands(table: map<string, int>, now: int, debounce: int, actions: seq<string>)
    ensures KeepsSome(actions, Drain(table, now, debounce, actions))
    decreases |actions|
  {
    if actions == [] {
      assert Picks([], [], actions);
    } else {
      var prefix := actions[..|actions| - 1];
      DrainCommands(table, now, debounce, prefix);
      var d := Drain(table, now, debounce, prefix);
      var action := actions[|actions| - 1];
      var idx :| Picks(idx, d.accepted, prefix);
      assert Picks(idx, d.accepted, actions);
      if Passes(d.table, now, debounce, action) {
        var accepted := d.accepted + [action];
        assert accepted[..|accepted| - 1] == d.accepted;
        assert Picks(idx + [|prefix|], accepted, actions);
      }
    }
  }

  /** Draining stamps exactly the names it accepts with `now` and leaves
      every other entry of the table as it was; names are never removed. */
  lemma {:induction false} DrainTable(table: map<string, int>, now: int, debounce: int, actions: seq<string>)
    ensures StampsAccepted(table, now, Drain(table, now, debounce, actions))
    decreases |actions|
  {
    if actions != [] {
      DrainTable(table, now, debounce, actions[..|actions| - 1]);
    }
  }

  /** With a positive window, a name fires at most once per tick, however
      often it was queued. */
  lemma {:induction false} DrainFiresOncePerName(table: map<string, int>, now: int, debounce: int, actions: seq<string>)
    requires debounce > 0
    ensures NoRepeats(Drain(table, now, debounce, actions).accepted)
    decreases |actions|
  {
    if actions != [] {
      var prefix := actions[..|actions| - 1];
      DrainFiresOncePerName(table, now, debounce, prefix);
      DrainTable(table, now, debounce, prefix);
      var d := Drain(table, now, debounce, prefix);
      var action := actions[|actions| - 1];
      if Passes(d.table, now, debounce, action) {
        assert action !in d.accepted;
        var acc := d.accepted + [action];
        forall i, j | 0 <= i < j < |acc|
          ensures acc[i] != acc[j]
        {
          if j == |acc| - 1 {
            assert acc[i] in d.accepted;
          }
        }
      }
    }
  }

  /** With a positive window, a name fires in a pass exactly when it was
      queued and its window had passed before the pass: every eligible name
      fires (once), whatever else is queued around it. */
  lemma {:induction false} DrainFiresEligible(table: map<string, int>, now: int, debounce: int, actions: seq<string>, a: string)
    requires debounce > 0
    ensures a in Drain(table, now, debounce, actions).accepted <==> a in actions && Passes(table, now, debounce, a)
    decreases |actions|
  {
    if actions != [] {
      var prefix := actions[..|actions| - 1];
      var last := actions[|actions| - 1];
      assert actions == prefix + [last];
      DrainFiresEligible(table, now, debounce, prefix, a);
      DrainTable(table, now, debounce, prefix);
      var d := Drain(table, now, debounce, prefix);
      if last == a && a !in prefix {
        assert a !in d.accepted;
        assert LastFired(d.table, a) == LastFired(table, a);
      } else if last == a {
        if a in d.accepted {
          assert LastFired(d.table, a) == now;
        } else {
          assert LastFired(d.table, a) == LastFired(table, a);
        }
      }
    }
  }

  /** Reference definition of what a pass fires: in queue order, the first
      occurrence of every queued name whose window had passed before the
      pass. */
  function FirstEligible(table: map<string, int>, now: int, debounce: int, actions: seq<string>): seq<string>
    decreases |actions|
  {
    if actions == [] then []
    else
      var prefix := actions[..|actions| - 1];
      var a := actions[|actions| - 1];
      FirstEligible(table, now, debounce, prefix)
      + (if Passes(table, now, debounce, a) && a !in prefix then [a] else [])
  }

  /** With a positive window, the names a pass fires are exactly the
      reference filter of the queue. */
  lemma {:induction false} DrainIsFirstEligible(table: map<string, int>, now: int, debounce: int, actions: seq<string>)
    requires debounce > 0
    ensures Drain(table, now, debounce, actions).accepted == FirstEligible(table, now, debounce, actions)
    decreases |actions|
  {
    if actions != [] {
      var prefix := actions[..|actions| - 1];
      var a := actions[|actions| - 1];
      DrainIsFirstEligible(table, now, debounce, prefix);
      DrainTable(table, now, debounce, prefix);
      DrainFiresEligible(table, now, debounce, prefix, a);
      var d := Drain(table, now, debounce, prefix);
      if a in d.accepted {
        assert !Passes(d.table, now, debounce, a);
      } else {
        assert LastFired(d.table, a) == LastFired(table, a);
      }
      assert FirstEligible(table, now, debounce, prefix) + [] == FirstEligible(table, now, debounce, prefix);
    }
  }

  /** With no window (`debounce <= 0`) and no time in the table later than
      `now`, every queued action fires, repeats included, in queue order. */
  lemma {:induction false} DrainZeroWindowFiresAll(table: map<string, int>, now: int, debounce: int, actions: seq<string>)
    requires debounce <= 0 && now >= 0
    requires forall a :: a in table ==> table[a] <= now
    ensures Drain(table, now, debounce, actions).accepted == actions
    decreases |actions|
  {
    if actions != [] {
      var prefix := actions[..|actions| - 1];
      var a := actions[|actions| - 1];
      DrainZeroWindowFiresAll(table, now, debounce, prefix);
      DrainTable(table, now, debounce, prefix);
      var d := Drain(table, now, debounce, prefix);
      assert LastFired(d.table, a) <= now;
      assert prefix + [a] == actions;
    }
  }

  /** A single action is dropped, table untouched, inside the window;
      otherwise its name is stamped with `now` and its command issued. */
  lemma DebounceOne(table: map<string, int>, now: int, debounce: int, action: string)
    ensures (now - LastFired(table, action) < debounce ==>
               Drain(table, now, debounce, [action]) == Drained(table, [], []))
    ensures (now - LastFired(table, action) >= debounce ==>
               Drain(table, now, debounce, [action]) == Drained(table[action := now], CommandFor(action), [action]))
  {
    assert [action][..0] == [];
  }

  /** Two activations of one name in two ticks: after the first fired at
      `t1`, the second fires at `t2` exactly when the window has passed, and
      the table then holds the time of the last one that fired. */
  lemma DebounceAcrossTicks(
    s: LoopState, debounce: int, pollMs: int, action: string,
    t1: int, track1: Option<TrackInfo>, art1: Option<Art>,
    t2: int, track2: Option<TrackInfo>, art2: Option<Art>)
    requires t1 - LastFired(s.lastAction, action) >= debounce
    ensures var s1 := Tick(s, debounce, pollMs, t1, [action], track1, art1).0;
      var r2 := Tick(s1, debounce, pollMs, t2, [action], track2, art2);
      && Drain(s1.lastAction, t2, debounce, [action]).accepted == (if t2 - t1 >= debounce then [action] else [])
      && r2.1.commands == (if t2 - t1 >= debounce then CommandFor(action) else [])
      && LastFired(r2.0.lastAction, action) == (if t2 - t1 >= debounce then t2 else t1)
  {
    DebounceOne(s.lastAction, t1, debounce, action);
    var s1 := Tick(s, debounce, pollMs, t1, [action], track1, art1).0;
    assert s1.lastAction == s.lastAction[action := t1];
    DebounceOne(s1.lastAction, t2, debounce, action);
  }

  /** Any action that fires clears the render key, so a poll in the same
      tick always redraws, whether or not the name issued a command. */
  lemma FiredActionForcesRedraw(
    s: LoopState, debounce: int, pollMs: int,
    now: int, actions: seq<string>, track: Option<TrackInfo>, art: Option<Art>)
    requires Drain(s.lastAction, now, debounce, actions).accepted != []
    requires now >= s.nextPoll
    ensures Tick(s, debounce, pollMs, now, actions, track, art).1.displayed == Some(ScreenFor(track, Tick(s, debounce, pollMs, now, actions, track, art).0.currentArt))
  {
  }

  /** A poll happens exactly when `now >= next_poll`, and schedules the next
      one `poll` ms later; a tick without a poll fetches nothing, draws
      nothing and keeps the track and art. */
  lemma PollSchedule(
    s: LoopState, debounce: int, pollMs: int,
    now: int, actions: seq<string>, track: Option<TrackInfo>, art: Option<Art>)
    ensures var r := Tick(s, debounce, pollMs, now, actions, track, art);
      && r.0.nextPoll == (if now >= s.nextPoll then now + pollMs else s.nextPoll)
      && (now < s.nextPoll ==>
            && !r.1.artFetched && r.1.displayed.None?
            && r.0.currentTrackId == s.currentTrackId && r.0.currentArt == s.currentArt)
  {
  }

  /** Art is fetched exactly on a poll that reports a track other than the
      current one; after any poll the current track is the reported one. */
  lemma ArtFetchedOnTrackChange(
    s: LoopState, debounce: int, pollMs: int,
    now: int, actions: seq<string>, track: Option<TrackInfo>, art: Option<Art>)
    ensures var r := Tick(s, debounce, pollMs, now, actions, track, art);
      && (r.1.artFetched <==> now >= s.nextPoll && track.Some? && Some(track.value.trackId) != s.currentTrackId)
      && (now >= s.nextPoll ==> r.0.currentTrackId == if track.Some? then Some(track.value.trackId) else None)
      // the art kept is the fetched one on a change, the old one otherwise
      && (r.1.artFetched ==> r.0.currentArt == KeptArt(art))
      && (now >= s.nextPoll && track.Some? && !r.1.artFetched ==> r.0.currentArt == s.currentArt)
  {
  }

  /** The display is written exactly on a poll whose key differs from the
      last one drawn (after the drain); after every poll the last key drawn
      is the current key. */
  lemma DisplayOnKeyChange(
    s: LoopState, debounce: int, pollMs: int,
    now: int, actions: seq<string>, track: Option<TrackInfo>, art: Option<Art>)
    ensures var d := Drain(s.lastAction, now, debounce, actions);
      var keyBefore := if d.accepted == [] then s.lastRenderKey else None;
      var r := Tick(s, debounce, pollMs, now, actions, track, art);
      && (r.1.displayed.Some? <==> now >= s.nextPoll && Some(KeyFor(track)) != keyBefore)
      // a write shows the reported track's text with the art now current
      && (r.1.displayed.Some? ==> r.1.displayed == Some(ScreenFor(track, r.0.currentArt)))
      && (now >= s.nextPoll ==> r.0.lastRenderKey == Some(KeyFor(track)))
  {
  }

  /** A new track is always redrawn, even when its title, artist and play
      state equal the last ones drawn, and the write shows the art kept for
      it. */
  lemma NewTrackRedraws(
    s: LoopState, debounce: int, pollMs: int,
    now: int, actions: seq<string>, track: TrackInfo, art: Option<Art>)
    requires now >= s.nextPoll
    requires s.lastRenderKey.Some? ==> s.lastRenderKey.value.trackId != track.trackId
    ensures var r := Tick(s, debounce, pollMs, now, actions, Some(track), art);
      r.1.displayed.Some?
      && (Some(track.trackId) != s.currentTrackId ==> r.1.displayed.value.art == KeptArt(art))
  {
  }

  /** A pause or resume of the track last drawn, made elsewhere, is redrawn
      on the next poll, showing the new play state. */
  lemma PlayStateChangeRedraws(
    s: LoopState, debounce: int, pollMs: int,
    now: int, actions: seq<string>, track: TrackInfo, art: Option<Art>)
    requires now >= s.nextPoll
    requires s.lastRenderKey.Some? && s.lastRenderKey.value.isPlaying != track.isPlaying
    ensures var r := Tick(s, debounce, pollMs, now, actions, Some(track), art);
      r.1.displayed.Some? && r.1.displayed.value.isPlaying == track.isPlaying
  {
  }

  /** Change suppression: two polls in a row that report the same thing,
      with no action firing in between, write the display at most once and
      fetch art at most once. */
  lemma SameStateNoRedraw(
    s: LoopState, debounce: int, pollMs: int,
    t1: int, actions1: seq<string>, art1: Option<Art>,
    t2: int, actions2: seq<string>, art2: Option<Art>,
    track: Option<TrackInfo>)
    requires t1 >= s.nextPoll
    requires var s1 := Tick(s, debounce, pollMs, t1, actions1, track, art1).0;
      t2 >= s1.nextPoll && Drain(s1.lastAction, t2, debounce, actions2).accepted == []
    ensures var s1 := Tick(s, debounce, pollMs, t1, actions1, track, art1).0;
      var r2 := Tick(s1, debounce, pollMs, t2, actions2, track, art2);
      r2.1.displayed.None? && !r2.1.artFetched && r2.0.currentArt == s1.currentArt
  {
    DisplayOnKeyChange(s, debounce, pollMs, t1, actions1, track, art1);
    ArtFetchedOnTrackChange(s, debounce, pollMs, t1, actions1, track, art1);
  }

  /** With no track reported, a poll drops the track and art and any write
      shows the fixed "no active device" screen, not playing. */
  lemma NoDeviceFallback(
    s: LoopState, debounce: int, pollMs: int,
    now: int, actions: seq<string>, art: Option<Art>)
    requires now >= s.nextPoll
    ensures var r := Tick(s, debounce, pollMs, now, actions, None, art);
      && r.0.currentTrackId.None? && r.0.currentArt.None?
      && r.0.lastRenderKey == Some(RenderKey("none", false, NoDeviceTitle, NoDeviceArtist))
      && (r.1.displayed.None? || r.1.displayed == Some(Screen(NoDeviceTitle, NoDeviceArtist, None, false)))
  {
  }

  /** The first tick at a non-negative time always polls and draws. */
  lemma FirstTickDraws(
    debounce: int, pollMs: int,
    now: int, actions: seq<string>, track: Option<TrackInfo>, art: Option<Art>)
    requires now >= 0
    ensures Tick(Start, debounce, pollMs, now, actions, track, art).1.displayed.Some?
  {
  }

  /** The variables of `main`'s loop and the body of that loop. */
  class Scheduler {
    const debounceMs: int
    const pollMs: int
    var lastAction: map<string, int>
    var lastRenderKey: Option<RenderKey>
    var nextPoll: int
    var currentTrackId: Option<string>
    var currentArt: Option<Art>

    function State(): LoopState
      reads this
    {
      LoopState(lastAction, lastRenderKey, nextPoll, currentTrackId, currentArt)
    }

    constructor (debounceMs: int, pollMs: int)
      ensures this.debounceMs == debounceMs && this.pollMs == pollMs
      ensures State() == Start
    {
      this.debounceMs := debounceMs;
      this.pollMs := pollMs;
      lastAction := map[];
      lastRenderKey := None;
      nextPoll := 0;
      currentTrackId := None;
      currentArt := None;
    }

    /** One pass of the loop at time `now`, with `actions` queued by the
        touch backend since the last pass. */
    method Step(now: int, actions: seq<string>, track: Option<TrackInfo>, art: Option<Art>)
      returns (commands: seq<Command>, artFetched: bool, displayed: Option<Screen>)
      modifies this
      ensures (State(), TickOutput(commands, artFetched, displayed))
           == Tick(old(State()), debounceMs, pollMs, now, actions, track, art)
    {
      commands := DrainActions(now, actions);
      artFetched, displayed := PollTrack(now, track, art);
    }

    /** The inner loop: drain the queued actions through the debounce. */
    method DrainActions(now: int, actions: seq<string>) returns (commands: seq<Command>)
      modifies this
      ensures var d := Drain(old(lastAction), now, debounceMs, actions);
        && lastAction == d.table && commands == d.commands
        && lastRenderKey == (if d.accepted == [] then old(lastRenderKey) else None)
      ensures nextPoll == old(nextPoll) && currentTrackId == old(currentTrackId) && currentArt == old(currentArt)
    {
      commands := [];
      var i := 0;
      while i < |actions|
        invariant 0 <= i <= |actions|
        invariant var d := Drain(old(lastAction), now, debounceMs, actions[..i]);
          && lastAction == d.table && commands == d.commands
          && lastRenderKey == (if d.accepted == [] then old(lastRenderKey) else None)
        invariant nextPoll == old(nextPoll) && currentTrackId == old(currentTrackId) && currentArt == old(currentArt)
      {
        var action := actions[i];
        assert actions[..i + 1][..i] == actions[..i];
        i := i + 1;
        var lastTime := if action in lastAction then lastAction[action] else 0;
        if now - lastTime < debounceMs {
          continue;
        }
        lastAction := lastAction[action := now];
        if action == "Play/Pause" {
          commands := commands + [TogglePlayPause];
        } else if action == "Next" {
          commands := commands + [NextTrack];
        } else if action == "Like" {
          commands := commands + [LikeCurrent];
        } else {
          assert commands + [] == commands;
        }
        lastRenderKey := None;
      }
      assert actions[..|actions|] == actions;
    }

    /** The poll: on a due poll, fetch the track, fetch art on a track
        change, and redraw when the render key changed. */
    method PollTrack(now: int, track: Option<TrackInfo>, art: Option<Art>)
      returns (artFetched: bool, displayed: Option<Screen>)
      modifies this
      ensures (State(), artFetched, displayed) == Poll(old(State()), now, pollMs, track, art)
    {
      artFetched, displayed := false, None;
      if now >= nextPoll {
        nextPoll := now + pollMs;
        var title, artist, isPlaying, renderKey;
        if track.Some? {
          if Some(track.value.trackId) != currentTrackId {
            artFetched := true;
            if art.Some? && |art.value| > 0 {
              currentArt := art;
            } else {
              currentArt := None;
            }
            currentTrackId := Some(track.value.trackId);
          }
          title := if track.value.title != "" then track.value.title else UnknownTitle;
          artist := if track.value.artist != "" then track.value.artist else UnknownArtist;
          renderKey := RenderKey(track.value.trackId, track.value.isPlaying, title, artist);
          isPlaying := track.value.isPlaying;
        } else {
          currentTrackId := None;
          currentArt := None;
          title := NoDeviceTitle;
          artist := NoDeviceArtist;
          renderKey := RenderKey("none", false, title, artist);
          isPlaying := false;
        }
        if Some(renderKey) != lastRenderKey {
          displayed := Some(Screen(title, artist, currentArt, isPlaying));
          lastRenderKey := Some(renderKey);
        }
      }
    }
  }
}
