/** Session arbitration in the main process (`main.js`): the permission
    FIFO of session ids that decides which session window has the user's
    attention, the routing of global shortcuts to it, the session windows
    and their themes, and the idle-session sweep. The socket server is seen
    through an abstract view: the sessions it knows, each with its number
    of pending requests and the time of its last message. */
module Arbitration {
  import opened Options
  import opened Protocol
  import opened Layout

  type SessionId = string

  predicate NoDuplicates<T(==)>(s: seq<T>) {
    forall i, j :: 0 <= i < j < |s| ==> s[i] != s[j]
  }

  /** What the main process knows of one session of the socket server. */
  datatype SessionView = SessionView(pendingCount: nat, lastMessageAt: Option<int>)

  datatype Window = Window(theme: string, bounds: Bounds)

  datatype MainState = MainState(
    windows: map<SessionId, Window>,
    fifo: seq<SessionId>,
    nextThemeIndex: nat,
    sessions: map<SessionId, SessionView>)

  predicate Valid(st: MainState) {
    NoDuplicates(st.fifo)
  }

  /** `Array.prototype.indexOf`. */
  function IndexOf<T(==)>(s: seq<T>, x: T): (i: int)
    ensures -1 <= i < |s|
    ensures i == -1 <==> x !in s
    ensures 0 <= i ==> s[i] == x && x !in s[..i]
  {
    if |s| == 0 then -1
    else if s[0] == x then 0
    else
      var i := IndexOf(s[1..], x);
      if i == -1 then -1
      else
        assert s[..i + 1] == [s[0]] + s[1..][..i];
        i + 1
  }

  /** `s` with every occurrence of `x` taken out, the rest in order. */
  function Without(s: seq<SessionId>, x: SessionId): (r: seq<SessionId>)
    ensures forall y :: y in r <==> y in s && y != x
    ensures |r| <= |s|
  {
    if |s| == 0 then []
    else if s[0] == x then Without(s[1..], x)
    else [s[0]] + Without(s[1..], x)
  }

  lemma {:induction false} WithoutAppend(a: seq<SessionId>, b: seq<SessionId>, x: SessionId)
    ensures Without(a + b, x) == Without(a, x) + Without(b, x)
    decreases |a|
  {
    if |a| == 0 {
      assert a + b == b;
    } else {
      assert (a + b)[0] == a[0] && (a + b)[1..] == a[1..] + b;
      WithoutAppend(a[1..], b, x);
    }
  }

  lemma {:induction false} WithoutAbsent(s: seq<SessionId>, x: SessionId)
    requires x !in s
    ensures Without(s, x) == s
    decreases |s|
  {
    if |s| > 0 {
      WithoutAbsent(s[1..], x);
      assert [s[0]] + s[1..] == s;
    }
  }

  lemma {:induction false} WithoutKeepsDistinct(s: seq<SessionId>, x: SessionId)
    requires NoDuplicates(s)
    ensures NoDuplicates(Without(s, x))
    decreases |s|
  {
    if |s| > 0 {
      WithoutKeepsDistinct(s[1..], x);
      if s[0] != x {
        assert s[0] !in s[1..];
        ConsDistinct(s[0], Without(s[1..], x));
      }
    }
  }

  lemma ConsDistinct(a: SessionId, t: seq<SessionId>)
    requires NoDuplicates(t) && a !in t
    ensures NoDuplicates([a] + t)
  {
    var s := [a] + t;
    forall i, j | 0 <= i < j < |s|
      ensures s[i] != s[j]
    {
      assert s[j] == t[j - 1];
      if i > 0 {
        assert s[i] == t[i - 1];
      }
    }
  }

  /** The FIFO removal of `main.js`: find the session with `indexOf` and
      `splice` it out. On a FIFO without duplicates this deletes the session
      and keeps the others in their order. */
  function Splice(fifo: seq<SessionId>, s: SessionId): (r: seq<SessionId>)
    ensures NoDuplicates(fifo) ==> r == Without(fifo, s) && NoDuplicates(r)
    ensures s !in fifo ==> r == fifo
  {
    var i := IndexOf(fifo, s);
    if i == -1 then
      WithoutAbsent(fifo, s);
      fifo
    else
      var r := fifo[..i] + fifo[i + 1..];
      if NoDuplicates(fifo) then
        SpliceIsWithout(fifo, s, i);
        WithoutKeepsDistinct(fifo, s);
        r
      else
        r
  }

  lemma SpliceIsWithout(fifo: seq<SessionId>, s: SessionId, i: int)
    requires NoDuplicates(fifo)
    requires 0 <= i < |fifo| && fifo[i] == s
    ensures fifo[..i] + fifo[i + 1..] == Without(fifo, s)
  {
    assert fifo == fifo[..i] + ([fifo[i]] + fifo[i + 1..]);
    WithoutAppend(fifo[..i], [fifo[i]] + fifo[i + 1..], s);
    WithoutAppend([fifo[i]], fifo[i + 1..], s);
    assert s !in fifo[..i];
    assert s !in fifo[i + 1..];
    WithoutAbsent(fifo[..i], s);
    WithoutAbsent(fifo[i + 1..], s);
  }

  /** Adding a session that requested a permission: appended at the tail
      only when absent, so the FIFO never holds a session twice and earlier
      sessions keep their places. */
  function Enqueue(fifo: seq<SessionId>, s: SessionId): (r: seq<SessionId>)
    ensures NoDuplicates(fifo) ==> NoDuplicates(r)
    ensures forall x :: x in r <==> x in fifo || x == s
    ensures |r| >= |fifo| && r[..|fifo|] == fifo
  {
    if s in fifo then fifo else fifo + [s]
  }

  /** The active session: the head of the FIFO, none when it is empty. */
  function Active(fifo: seq<SessionId>): (r: Option<SessionId>)
    ensures r.Some? <==> |fifo| > 0
    ensures r.Some? ==> r.value == fifo[0] && r.value in fifo
  {
    if |fifo| > 0 then Some(fifo[0]) else None
  }

  /** Arbitration is first come, first served: a later request never takes
      the focus from a session already waiting, and removing any session
      but the active one leaves the active one in place. */
  lemma ActiveIsStable(fifo: seq<SessionId>, s: SessionId, other: SessionId)
    requires NoDuplicates(fifo) && |fifo| > 0 && other != fifo[0]
    ensures Active(Enqueue(fifo, s)) == Active(fifo)
    ensures Active(Splice(fifo, other)) == Active(fifo)
  {
    var r := Splice(fifo, other);
    assert fifo == [fifo[0]] + fifo[1..];
    assert r == Without(fifo, other);
    assert Without(fifo, other) == [fifo[0]] + Without(fifo[1..], other);
  }

  /** Resolving the active session hands the focus to the next session in
      arrival order. */
  lemma ResolvingHeadPromotesNext(fifo: seq<SessionId>)
    requires NoDuplicates(fifo) && |fifo| > 0
    ensures Splice(fifo, fifo[0]) == fifo[1..]
    ensures Active(Splice(fifo, fifo[0])) == if |fifo| > 1 then Some(fifo[1]) else None
  {
  }

  /** The window level `updateActiveSession` gives each open window. */
  datatype Level = ScreenSaver | Floating

  /** After `updateActiveSession`: the active session's window sits above
      all others, every other window floats. A session id that is the empty
      string is falsy and never raised. */
  function Levels(st: MainState): (levels: map<SessionId, Level>)
    ensures levels.Keys == st.windows.Keys
    ensures forall s :: s in levels ==> (levels[s] == ScreenSaver <==> Active(st.fifo) == Some(s) && s != "")
  {
    map s | s in st.windows :: if Active(st.fifo) == Some(s) && s != "" then ScreenSaver else Floating
  }

  datatype Shortcut = ShortcutAllow | ShortcutDeny | ShortcutAlwaysAllow

  /** The window a global shortcut is delivered to: only the active
      session's, and none at all when the FIFO is empty or the active
      session has no window. */
  function ShortcutTarget(st: MainState, shortcut: Shortcut): (r: Option<SessionId>)
    ensures |st.fifo| == 0 ==> r == None
    ensures r.Some? ==> Active(st.fifo) == r && r.value in st.windows
    ensures |st.fifo| > 0 && st.fifo[0] in st.windows ==> r == Some(st.fifo[0])
  {
    if |st.fifo| == 0 then None
    else if st.fifo[0] in st.windows then Some(st.fifo[0])
    else None
  }

  /** `onPermissionRequest`: the session joins the FIFO tail if absent. */
  function OnPermissionRequest(st: MainState, s: SessionId): (r: MainState)
    ensures Valid(st) ==> Valid(r)
    ensures r == st.(fifo := Enqueue(st.fifo, s))
  {
    st.(fifo := Enqueue(st.fifo, s))
  }

  /** `onSessionPermissionsDismiss`: the session leaves the FIFO, the rest
      keep their order. */
  function OnSessionPermissionsDismiss(st: MainState, s: SessionId): (r: MainState)
    ensures Valid(st) ==> Valid(r) && r.fifo == Without(st.fifo, s)
    ensures s !in r.fifo || !Valid(st)
    ensures r.windows == st.windows && r.sessions == st.sessions && r.nextThemeIndex == st.nextThemeIndex
  {
    st.(fifo := Splice(st.fifo, s))
  }

  /** `onAllPermissionsDismiss`: the FIFO is emptied and no session is
      active. */
  function OnAllPermissionsDismiss(st: MainState): (r: MainState)
    ensures Valid(r) && Active(r.fifo) == None
    ensures r.windows == st.windows && r.sessions == st.sessions && r.nextThemeIndex == st.nextThemeIndex
  {
    st.(fifo := [])
  }

  /** The `closed` handler of a session window: the window is forgotten and
      the session leaves the FIFO; the server's sessions are untouched. */
  function WindowClosed(st: MainState, s: SessionId): (r: MainState)
    ensures Valid(st) ==> Valid(r) && r.fifo == Without(st.fifo, s)
    ensures r.windows.Keys == st.windows.Keys - {s}
    ensures forall t :: t in r.windows ==> r.windows[t] == st.windows[t]
    ensures r.sessions == st.sessions && r.nextThemeIndex == st.nextThemeIndex
  {
    st.(windows := st.windows - {s}, fifo := Splice(st.fifo, s))
  }

  /** `removeSession`: the session's window, FIFO place and server session
      all go; every other session is untouched and the FIFO keeps its
      order. */
  function RemoveSession(st: MainState, s: SessionId): (r: MainState)
    ensures Valid(st) ==> Valid(r) && r.fifo == Without(st.fifo, s)
    ensures r.windows.Keys == st.windows.Keys - {s}
    ensures forall t :: t in r.windows ==> r.windows[t] == st.windows[t]
    ensures r.sessions.Keys == st.sessions.Keys - {s}
    ensures forall t :: t in r.sessions ==> r.sessions[t] == st.sessions[t]
    ensures r.nextThemeIndex == st.nextThemeIndex
  {
    st.(windows := st.windows - {s}, fifo := Splice(st.fifo, s), sessions := st.sessions - {s})
  }

  /** `createSessionWindow`: a session that already has a window keeps it
      and consumes no theme; a new one gets the next theme of the palette,
      round-robin, and is placed one offset left of the windows already
      open. */
  function CreateSessionWindow(st: MainState, s: SessionId, screenWidth: int, screenHeight: int): (r: MainState)
    ensures s in st.windows ==> r == st
    ensures s !in st.windows ==>
              && r.windows.Keys == st.windows.Keys + {s}
              && r.windows[s] == Window(ThemeFor(st.nextThemeIndex), InitialBounds(screenWidth, screenHeight, |st.windows|))
              && r.nextThemeIndex == st.nextThemeIndex + 1
    ensures forall t :: t in st.windows ==> t in r.windows && r.windows[t] == st.windows[t]
    ensures r.fifo == st.fifo && r.sessions == st.sessions
  {
    if s in st.windows then st
    else
      var w := Window(ThemeFor(st.nextThemeIndex), InitialBounds(screenWidth, screenHeight, |st.windows|));
      st.(windows := st.windows[s := w], nextThemeIndex := st.nextThemeIndex + 1)
  }

  /** Windows created one after another. */
  function CreateAll(st: MainState, ids: seq<SessionId>, screenWidth: int, screenHeight: int): MainState
    decreases |ids|
  {
    if |ids| == 0 then st
    else CreateAll(CreateSessionWindow(st, ids[0], screenWidth, screenHeight), ids[1..], screenWidth, screenHeight)
  }

  /** Creating windows never disturbs a window that is already open. */
  lemma {:induction false} CreateAllKeepsExisting(st: MainState, ids: seq<SessionId>, w: int, h: int)
    ensures forall t :: t in st.windows ==> t in CreateAll(st, ids, w, h).windows && CreateAll(st, ids, w, h).windows[t] == st.windows[t]
    ensures st.windows.Keys <= CreateAll(st, ids, w, h).windows.Keys
    decreases |ids|
  {
    if |ids| > 0 {
      CreateAllKeepsExisting(CreateSessionWindow(st, ids[0], w, h), ids[1..], w, h);
    }
  }

  /** `r` is `st` after windows were created, in turn, for the new
      sessions `ids`. */
  predicate CreatedInTurn(st: MainState, ids: seq<SessionId>, r: MainState, w: int, h: int) {
    && r.nextThemeIndex == st.nextThemeIndex + |ids|
    && |r.windows| == |st.windows| + |ids|
    && forall i :: 0 <= i < |ids| ==>
         && ids[i] in r.windows
         && r.windows[ids[i]].theme == ColorThemes[(st.nextThemeIndex + i) % |ColorThemes|]
         && r.windows[ids[i]].bounds == InitialBounds(w, h, |st.windows| + i)
  }

  /** Round-robin themes: for new sessions created in turn, the k-th gets
      the palette entry k places after the next free index (modulo the
      palette size) and sits k offsets further left, and the index advances
      by one per window created. */
  lemma {:induction false} ThemesRoundRobin(st: MainState, ids: seq<SessionId>, w: int, h: int)
    requires NoDuplicates(ids)
    requires forall i :: 0 <= i < |ids| ==> ids[i] !in st.windows
    ensures CreatedInTurn(st, ids, CreateAll(st, ids, w, h), w, h)
    decreases |ids|
  {
    if |ids| > 0 {
      var st1 := CreateSessionWindow(st, ids[0], w, h);
      var tail := ids[1..];
      forall i | 0 <= i < |tail|
        ensures tail[i] !in st1.windows
      {
        assert tail[i] == ids[i + 1];
      }
      ThemesRoundRobin(st1, tail, w, h);
      CreateAllKeepsExisting(st1, tail, w, h);
      RoundRobinStep(st, st1, ids, CreateAll(st1, tail, w, h), w, h);
    }
  }

  lemma RoundRobinStep(st: MainState, st1: MainState, ids: seq<SessionId>, r: MainState, w: int, h: int)
    requires |ids| > 0 && ids[0] !in st.windows
    requires st1.windows == st.windows[ids[0] := Window(ThemeFor(st.nextThemeIndex), InitialBounds(w, h, |st.windows|))]
    requires st1.nextThemeIndex == st.nextThemeIndex + 1
    requires CreatedInTurn(st1, ids[1..], r, w, h)
    requires ids[0] in r.windows && r.windows[ids[0]] == st1.windows[ids[0]]
    ensures CreatedInTurn(st, ids, r, w, h)
  {
    assert |st1.windows| == |st.windows| + 1;
    forall i | 0 <= i < |ids|
      ensures ids[i] in r.windows
      ensures r.windows[ids[i]].theme == ColorThemes[(st.nextThemeIndex + i) % |ColorThemes|]
      ensures r.windows[ids[i]].bounds == InitialBounds(w, h, |st.windows| + i)
    {
      if i > 0 {
        assert ids[i] == ids[1..][i - 1];
      }
    }
  }

  /** Creating a window for a session that has one is a no-op, however
      often it is repeated. */
  lemma CreateIsIdempotent(st: MainState, s: SessionId, w: int, h: int)
    ensures var r := CreateSessionWindow(st, s, w, h);
            CreateSessionWindow(r, s, w, h) == r
  {
  }

  /** Sessions idle longer than this (in milliseconds) are collected. */
  const SessionTimeoutMs: int := 5 * 60 * 1000

  /** The sweep's test for one session: never the default session, never a
      session with a pending request, and otherwise exactly when it has a
      (truthy) last-message time more than the timeout ago. */
  predicate Collectable(id: SessionId, v: SessionView, now: int) {
    && id != DefaultSession
    && v.pendingCount == 0
    && v.lastMessageAt.Some? && v.lastMessageAt.value != 0
    && now - v.lastMessageAt.value > SessionTimeoutMs
  }

  /** The sessions a sweep at time `now` collects. */
  function Victims(sessions: map<SessionId, SessionView>, now: int): (victims: set<SessionId>)
    ensures forall id :: id in victims <==> id in sessions && Collectable(id, sessions[id], now)
    ensures DefaultSession !in victims
    ensures forall id :: id in victims ==> sessions[id].pendingCount == 0
  {
    set id | id in sessions && Collectable(id, sessions[id], now)
  }

  /** `s` without the members of `gone`, the rest in order. */
  function WithoutAll(s: seq<SessionId>, gone: set<SessionId>): (r: seq<SessionId>)
    ensures forall y :: y in r <==> y in s && y !in gone
  {
    if |s| == 0 then []
    else if s[0] in gone then WithoutAll(s[1..], gone)
    else [s[0]] + WithoutAll(s[1..], gone)
  }

  lemma {:induction false} WithoutAllStep(s: seq<SessionId>, gone: set<SessionId>, x: SessionId)
    ensures Without(WithoutAll(s, gone), x) == WithoutAll(s, gone + {x})
    decreases |s|
  {
    if |s| > 0 {
      WithoutAllStep(s[1..], gone, x);
    }
  }

  lemma {:induction false} WithoutAllKeepsDistinct(s: seq<SessionId>, gone: set<SessionId>)
    requires NoDuplicates(s)
    ensures NoDuplicates(WithoutAll(s, gone))
    decreases |s|
  {
    if |s| > 0 {
      WithoutAllKeepsDistinct(s[1..], gone);
    }
  }

  /** The periodic session sweep: every session the server knows is
      inspected once and the collectable ones are removed as by
      `removeSession`. The result removes exactly the collectable sessions
      from the server view, the windows and the FIFO, keeping the FIFO's
      order; the default session and sessions with pending requests always
      survive. */
  method CollectIdleSessions(st: MainState, now: int) returns (r: MainState)
    requires Valid(st)
    ensures Valid(r)
    ensures r.sessions.Keys == st.sessions.Keys - Victims(st.sessions, now)
    ensures forall id :: id in r.sessions ==> r.sessions[id] == st.sessions[id]
    ensures r.windows.Keys == st.windows.Keys - Victims(st.sessions, now)
    ensures forall id :: id in r.windows ==> r.windows[id] == st.windows[id]
    ensures r.fifo == WithoutAll(st.fifo, Victims(st.sessions, now))
    ensures r.nextThemeIndex == st.nextThemeIndex
    ensures DefaultSession in st.sessions ==> DefaultSession in r.sessions
    ensures forall id :: id in st.sessions && st.sessions[id].pendingCount > 0 ==> id in r.sessions
  {
    var victims := Victims(st.sessions, now);
    var todo := st.sessions.Keys;
    r := st;
    WithoutAllNone(st.fifo);
    assert victims - todo == {};
    while todo != {}
      invariant todo <= st.sessions.Keys
      invariant RemovedSoFar(st, r, victims - todo)
      decreases todo
    {
      var id :| id in todo;
      SweepStep(st, r, now, todo, id);
      if Collectable(id, r.sessions[id], now) {
        r := RemoveSession(r, id);
      }
      todo := todo - {id};
    }
    assert victims - todo == victims;
    SweepDone(st, r, now);
  }

  /** Inspecting one more session keeps the sweep's invariant. */
  lemma SweepStep(st: MainState, r: MainState, now: int, todo: set<SessionId>, id: SessionId)
    requires Valid(st) && todo <= st.sessions.Keys && id in todo
    requires RemovedSoFar(st, r, Victims(st.sessions, now) - todo)
    ensures id in r.sessions && r.sessions[id] == st.sessions[id]
    ensures Collectable(id, r.sessions[id], now) ==>
              RemovedSoFar(st, RemoveSession(r, id), Victims(st.sessions, now) - (todo - {id}))
    ensures !Collectable(id, r.sessions[id], now) ==>
              RemovedSoFar(st, r, Victims(st.sessions, now) - (todo - {id}))
  {
    var victims := Victims(st.sessions, now);
    if Collectable(id, r.sessions[id], now) {
      RemoveStep(st, r, victims - todo, id);
      assert (victims - todo) + {id} == victims - (todo - {id});
    } else {
      assert victims - todo == victims - (todo - {id});
    }
  }

  /** Once every session was inspected, the sweep has removed exactly the
      victims. */
  lemma SweepDone(st: MainState, r: MainState, now: int)
    requires RemovedSoFar(st, r, Victims(st.sessions, now))
    ensures Valid(r)
    ensures DefaultSession in st.sessions ==> DefaultSession in r.sessions
    ensures forall id :: id in st.sessions && st.sessions[id].pendingCount > 0 ==> id in r.sessions
  {
  }

  /** `r` is `st` with the sessions in `gone` removed as by `removeSession`. */
  predicate RemovedSoFar(st: MainState, r: MainState, gone: set<SessionId>) {
    && r.sessions.Keys == st.sessions.Keys - gone
    && (forall id :: id in r.sessions ==> r.sessions[id] == st.sessions[id])
    && r.windows.Keys == st.windows.Keys - gone
    && (forall id :: id in r.windows ==> r.windows[id] == st.windows[id])
    && r.fifo == WithoutAll(st.fifo, gone)
    && NoDuplicates(r.fifo)
    && r.nextThemeIndex == st.nextThemeIndex
  }

  lemma RemoveStep(st: MainState, r: MainState, gone: set<SessionId>, id: SessionId)
    requires Valid(st) && RemovedSoFar(st, r, gone)
    ensures RemovedSoFar(st, RemoveSession(r, id), gone + {id})
  {
    WithoutAllStep(st.fifo, gone, id);
    WithoutAllKeepsDistinct(st.fifo, gone + {id});
  }

  lemma {:induction false} WithoutAllNone(s: seq<SessionId>)
    ensures WithoutAll(s, {}) == s
    decreases |s|
  {
    if |s| > 0 {
      WithoutAllNone(s[1..]);
      assert [s[0]] + s[1..] == s;
    }
  }
}
