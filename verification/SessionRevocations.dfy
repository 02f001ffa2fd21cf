/** Ending an admin session for good: the revocation marks and their lifetime, against the
    lifetime of the signed cookie. */
module SessionRevocations {
  import opened Json

  const KEY_PREFIX := "admin-session-revoked:"

  /** Milliseconds on the one clock the cookie and the backend are read against. */
  type Instant = nat

  const SECOND: nat := 1000

  // ----- The key-value backend -----

  datatype Mark = Mark(count: nat, expiresAt: Option<Instant>)

  type Marks = map<string, Mark>

  predicate Live(marks: Marks, now: Instant, key: string) {
    key in marks && (marks[key].expiresAt.None? || now < marks[key].expiresAt.value)
  }

  /** `INCR`: an absent or expired key starts again, with no expiry. */
  function Incremented(marks: Marks, now: Instant, key: string): Marks {
    if Live(marks, now, key) then marks[key := marks[key].(count := marks[key].count + 1)]
    else marks[key := Mark(1, None)]
  }

  /** `EXPIRE`: an absent or expired key is left absent. */
  function Expiring(marks: Marks, now: Instant, key: string, seconds: nat): Marks {
    if Live(marks, now, key) then marks[key := marks[key].(expiresAt := Some(now + seconds * SECOND))] else marks
  }

  class Backend {
    var marks: Marks
    var now: Instant

    constructor ()
      ensures marks == map[] && now == 0
    {
      marks, now := map[], 0;
    }

    method Incr(key: string) returns (count: nat)
      modifies this`marks
      ensures marks == Incremented(old(marks), now, key)
      ensures key in marks && count == marks[key].count
      ensures if Live(old(marks), now, key)
              then count == old(marks)[key].count + 1 && marks[key].expiresAt == old(marks)[key].expiresAt
              else count == 1 && marks[key].expiresAt == None
      ensures forall other :: other in old(marks) && other != key ==>
                other in marks && marks[other] == old(marks)[other]
    {
      if Live(marks, now, key) {
        marks := marks[key := marks[key].(count := marks[key].count + 1)];
      } else {
        marks := marks[key := Mark(1, None)];
      }
      count := marks[key].count;
    }

    method Expire(key: string, seconds: nat) returns (found: bool)
      modifies this`marks
      ensures marks == Expiring(old(marks), now, key, seconds)
      ensures found == Live(old(marks), now, key)
      ensures found ==> forall later: Instant :: Live(marks, later, key) <==> later < now + seconds * SECOND
      ensures forall other :: other != key ==>
                (other in marks <==> other in old(marks)) && (other in marks ==> marks[other] == old(marks)[other])
    {
      found := Live(marks, now, key);
      if found {
        marks := marks[key := marks[key].(expiresAt := Some(now + seconds * SECOND))];
      }
    }

    method Get(key: string) returns (count: Option<nat>)
      ensures count.Some? == Live(marks, now, key)
    {
      count := if Live(marks, now, key) then Some(marks[key].count) else None;
    }
  }

  // ----- Cookies and the list -----

  /** A cookie whose signature verifies: the session it carries and when it was signed. */
  datatype Cookie = Cookie(sessionId: string, signedAt: Instant)

  /** The signer keeps whole seconds on both sides of the comparison. */
  predicate Accepted(cookie: Cookie, now: Instant, maxAge: nat) {
    0 <= now / SECOND - cookie.signedAt / SECOND <= maxAge
  }

  predicate Revoked(marks: Marks, now: Instant, sessionId: string) {
    sessionId != "" && Live(marks, now, KEY_PREFIX + sessionId)
  }

  class Revocations {
    const backend: Backend
    const ttl: nat

    constructor (backend: Backend, ttl: nat)
      ensures this.backend == backend && this.ttl == ttl
    {
      this.backend := backend;
      this.ttl := ttl;
    }

    /** Both steps of `revoke`, with nothing in between. */
    method Revoke(sessionId: string)
      modifies backend`marks
      ensures sessionId == "" ==> backend.marks == old(backend.marks)
      ensures sessionId != "" ==>
        backend.marks == Expiring(Incremented(old(backend.marks), backend.now, KEY_PREFIX + sessionId),
                                  backend.now, KEY_PREFIX + sessionId, ttl)
      ensures sessionId != "" ==> forall later: Instant ::
        Revoked(backend.marks, later, sessionId) <==> later < backend.now + ttl * SECOND
      ensures forall other: string, later: Instant :: other != sessionId ==>
        (Revoked(backend.marks, later, other) <==> Revoked(old(backend.marks), later, other))
    {
      if sessionId == "" {
        return;
      }
      var _ := backend.Incr(KEY_PREFIX + sessionId);
      var _ := backend.Expire(KEY_PREFIX + sessionId, ttl);
      forall other: string ensures KEY_PREFIX + other == KEY_PREFIX + sessionId ==> other == sessionId {
        PrefixedKeysDiffer(other, sessionId);
      }
    }

    method IsRevoked(sessionId: string) returns (revoked: bool)
      ensures revoked == Revoked(backend.marks, backend.now, sessionId)
      ensures sessionId == "" ==> !revoked
    {
      if sessionId == "" {
        return false;
      }
      var mark := backend.Get(KEY_PREFIX + sessionId);
      revoked := mark.Some?;
    }
  }

  // ----- Every interleaving -----

  /** One call of `revoke`: when its increment ran, and whether it took hold, by creating
      the mark or by still finding it when it came to set the expiry. */
  datatype Revocation = Revocation(sessionId: string, at: Instant, took: bool)

  datatype World = World(marks: Marks, now: Instant, calls: map<nat, Revocation>)

  datatype Event =
    | Tick(elapsed: nat)
    | Increment(call: nat, sessionId: string)
    | Expire(call: nat)

  const START := World(map[], 0, map[])

  /** A call increments once, under a number of its own, and may set the expiry later, more
      than once, or never. */
  function Next(w: World, e: Event, ttl: nat): World {
    match e
    case Tick(elapsed) => w.(now := w.now + elapsed)
    case Increment(call, sessionId) =>
      if call in w.calls || sessionId == "" then w else
        var key := KEY_PREFIX + sessionId;
        w.(marks := Incremented(w.marks, w.now, key),
           calls := w.calls[call := Revocation(sessionId, w.now, !Live(w.marks, w.now, key))])
    case Expire(call) =>
      if call !in w.calls then w else
        var r := w.calls[call];
        var key := KEY_PREFIX + r.sessionId;
        w.(marks := Expiring(w.marks, w.now, key, ttl),
           calls := w.calls[call := r.(took := r.took || Live(w.marks, w.now, key))])
  }

  function Run(events: seq<Event>, ttl: nat): World {
    if events == [] then START else Next(Run(events[..|events| - 1], ttl), events[|events| - 1], ttl)
  }

  /** A revocation that took hold keeps its mark for `ttl` from its increment. */
  ghost predicate Held(w: World, r: Revocation, ttl: nat) {
    var key := KEY_PREFIX + r.sessionId;
    && r.sessionId != "" && r.at <= w.now
    && (r.took ==> (
          || w.now >= r.at + ttl * SECOND
          || (key in w.marks &&
              (w.marks[key].expiresAt.None? || w.marks[key].expiresAt.value >= r.at + ttl * SECOND))))
  }

  lemma PrefixedKeysDiffer(a: string, b: string)
    ensures KEY_PREFIX + a == KEY_PREFIX + b ==> a == b
  {
    assert (KEY_PREFIX + a)[|KEY_PREFIX|..] == a && (KEY_PREFIX + b)[|KEY_PREFIX|..] == b;
  }

  ghost predicate AllHeld(w: World, ttl: nat) {
    forall call :: call in w.calls ==> Held(w, w.calls[call], ttl)
  }

  lemma NextKeepsHeld(w: World, e: Event, ttl: nat)
    requires AllHeld(w, ttl)
    ensures AllHeld(Next(w, e, ttl), ttl)
  {
    var after := Next(w, e, ttl);
    forall call | call in after.calls ensures Held(after, after.calls[call], ttl) {
      assert call in w.calls ==> Held(w, w.calls[call], ttl);
    }
  }

  lemma {:induction false} MarksAreHeld(events: seq<Event>, ttl: nat)
    ensures AllHeld(Run(events, ttl), ttl)
    decreases |events|
  {
    if events == [] {
    } else {
      MarksAreHeld(events[..|events| - 1], ttl);
      NextKeepsHeld(Run(events[..|events| - 1], ttl), events[|events| - 1], ttl);
    }
  }

  // ----- Every revoked session has a mark that holds -----

  /** Some revocation of the session took hold, no later than `at`. */
  ghost predicate Covered(w: World, sessionId: string, at: Instant) {
    exists call ::
      call in w.calls && w.calls[call].took && w.calls[call].sessionId == sessionId && w.calls[call].at <= at
  }

  /** A revocation that finds a mark relies on one that took hold before it. */
  ghost predicate AllCovered(w: World) {
    && (forall call :: call in w.calls ==> Covered(w, w.calls[call].sessionId, w.calls[call].at))
    && (forall sessionId :: KEY_PREFIX + sessionId in w.marks ==> Covered(w, sessionId, w.now))
  }

  lemma {:induction false} CoverStays(w: World, e: Event, ttl: nat, sessionId: string, at: Instant)
    requires Covered(w, sessionId, at)
    ensures forall later :: at <= later ==> Covered(Next(w, e, ttl), sessionId, later)
  {
    var call :|
      call in w.calls && w.calls[call].took && w.calls[call].sessionId == sessionId && w.calls[call].at <= at;
    var after := Next(w, e, ttl);
    assert call in after.calls && after.calls[call].took && after.calls[call].sessionId == sessionId;
  }

  lemma {:induction false} IncrementIsCovered(w: World, call: nat, sessionId: string, ttl: nat)
    requires AllCovered(w) && call !in w.calls && sessionId != ""
    ensures Covered(Next(w, Increment(call, sessionId), ttl), sessionId, w.now)
  {
    var e, key := Increment(call, sessionId), KEY_PREFIX + sessionId;
    var after := Next(w, e, ttl);
    if Live(w.marks, w.now, key) {
      CoverStays(w, e, ttl, sessionId, w.now);
    } else {
      assert after.calls[call] == Revocation(sessionId, w.now, true);
    }
  }

  lemma {:induction false} CallsStayCovered(w: World, e: Event, ttl: nat, call: nat)
    requires AllCovered(w) && call in Next(w, e, ttl).calls
    ensures var after := Next(w, e, ttl); Covered(after, after.calls[call].sessionId, after.calls[call].at)
  {
    if call in w.calls {
      CoverStays(w, e, ttl, w.calls[call].sessionId, w.calls[call].at);
    } else {
      IncrementIsCovered(w, call, e.sessionId, ttl);
    }
  }

  lemma {:induction false} MarksStayCovered(w: World, e: Event, ttl: nat, sessionId: string)
    requires AllCovered(w) && KEY_PREFIX + sessionId in Next(w, e, ttl).marks
    ensures Covered(Next(w, e, ttl), sessionId, Next(w, e, ttl).now)
  {
    if KEY_PREFIX + sessionId in w.marks {
      CoverStays(w, e, ttl, sessionId, w.now);
    } else {
      PrefixedKeysDiffer(sessionId, e.sessionId);
      IncrementIsCovered(w, e.call, sessionId, ttl);
    }
  }

  lemma {:induction false} NextKeepsCovered(w: World, e: Event, ttl: nat)
    requires AllCovered(w)
    ensures AllCovered(Next(w, e, ttl))
  {
    var after := Next(w, e, ttl);
    forall call | call in after.calls ensures Covered(after, after.calls[call].sessionId, after.calls[call].at) {
      CallsStayCovered(w, e, ttl, call);
    }
    forall sessionId | KEY_PREFIX + sessionId in after.marks ensures Covered(after, sessionId, after.now) {
      MarksStayCovered(w, e, ttl, sessionId);
    }
  }

  lemma {:induction false} RevocationsAreCovered(events: seq<Event>, ttl: nat)
    ensures AllCovered(Run(events, ttl))
    decreases |events|
  {
    if events == [] {
    } else {
      RevocationsAreCovered(events[..|events| - 1], ttl);
      NextKeepsCovered(Run(events[..|events| - 1], ttl), events[|events| - 1], ttl);
    }
  }

  // ----- What a logout promises -----

  /** The cookie was signed before its session was revoked for the first time. The console
      signs a session id once, when it draws it. */
  ghost predicate SignedBeforeRevoked(w: World, cookie: Cookie) {
    forall call :: call in w.calls && w.calls[call].sessionId == cookie.sessionId ==>
        cookie.signedAt <= w.calls[call].at
  }

  /** Once a session has been revoked, by any revocation and however far it got, no cookie of
      it is ever both accepted and reported not revoked. */
  ghost predicate LogoutHolds(w: World, maxAge: nat) {
    forall call, cookie: Cookie ::
      call in w.calls && w.calls[call].sessionId == cookie.sessionId &&
      SignedBeforeRevoked(w, cookie) && Accepted(cookie, w.now, maxAge) ==>
      Revoked(w.marks, w.now, cookie.sessionId)
  }

  /** It holds over every run exactly when the mark outlives the cookie: with equal lifetimes
      the mark is gone during the last second the signer still accepts the cookie. */
  lemma LogoutHoldsExactlyWhenMarkOutlivesCookie(ttl: nat, maxAge: nat)
    ensures (forall events :: LogoutHolds(Run(events, ttl), maxAge)) <==> ttl > maxAge
  {
    if ttl > maxAge {
      forall events ensures LogoutHolds(Run(events, ttl), maxAge) {
        LogoutHoldsWhenLonger(events, ttl, maxAge);
      }
    } else {
      var events := LogoutThenWait(ttl);
      LogoutLapses(ttl, maxAge);
      assert !LogoutHolds(Run(events, ttl), maxAge);
    }
  }

  /** A revocation that took hold covers every cookie signed up to its increment. */
  lemma {:induction false} TookIsRevoked(w: World, call: nat, cookie: Cookie, ttl: nat, maxAge: nat)
    requires AllHeld(w, ttl) && ttl > maxAge && call in w.calls && w.calls[call].took
    requires cookie.sessionId == w.calls[call].sessionId && cookie.signedAt <= w.calls[call].at
    requires Accepted(cookie, w.now, maxAge)
    ensures Revoked(w.marks, w.now, cookie.sessionId)
  {
    var at := w.calls[call].at;
    assert Held(w, w.calls[call], ttl);
    assert w.now < at + ttl * SECOND by {
      assert w.now / SECOND <= cookie.signedAt / SECOND + maxAge <= at / SECOND + maxAge;
    }
  }

  lemma {:induction false} LogoutHoldsWhenLonger(events: seq<Event>, ttl: nat, maxAge: nat)
    requires ttl > maxAge
    ensures LogoutHolds(Run(events, ttl), maxAge)
  {
    var w := Run(events, ttl);
    MarksAreHeld(events, ttl);
    RevocationsAreCovered(events, ttl);
    forall call, cookie: Cookie | call in w.calls && w.calls[call].sessionId == cookie.sessionId &&
        SignedBeforeRevoked(w, cookie) && Accepted(cookie, w.now, maxAge)
      ensures Revoked(w.marks, w.now, cookie.sessionId)
    {
      assert Covered(w, cookie.sessionId, w.calls[call].at);
      var cover :| cover in w.calls && w.calls[cover].took && w.calls[cover].sessionId == cookie.sessionId;
      TookIsRevoked(w, cover, cookie, ttl, maxAge);
    }
  }

  function LogoutThenWait(ttl: nat): seq<Event> {
    [Increment(0, "s"), Expire(0), Tick(ttl * SECOND)]
  }

  lemma {:induction false} LogoutLapses(ttl: nat, maxAge: nat)
    requires ttl <= maxAge
    ensures !LogoutHolds(Run(LogoutThenWait(ttl), ttl), maxAge)
  {
    var events := LogoutThenWait(ttl);
    var key := KEY_PREFIX + "s";
    assert events[..3] == events && events[..2] == [events[0], events[1]];
    assert [events[0], events[1]][..1] == [events[0]] && [events[0]][..0] == [];
    var w1 := Next(START, events[0], ttl);
    var w2 := Next(w1, events[1], ttl);
    var w3 := Next(w2, events[2], ttl);
    assert Run([events[0]], ttl) == w1;
    assert Run([events[0], events[1]], ttl) == w2;
    assert Run(events, ttl) == w3;
    assert w2.calls[0] == Revocation("s", 0, true) && w2.marks[key].expiresAt == Some(ttl * SECOND);
    var cookie := Cookie("s", 0);
    assert w3.now == ttl * SECOND;
    assert Accepted(cookie, w3.now, maxAge);
    assert !Revoked(w3.marks, w3.now, "s");
    assert SignedBeforeRevoked(w3, cookie);
  }

  // ----- One revocation, for cookies signed at any time before it -----

  /** No cookie signed up to the revocation is accepted and reported not revoked. */
  ghost predicate RevocationHolds(w: World, call: nat, maxAge: nat)
    requires call in w.calls
  {
    forall cookie: Cookie ::
      cookie.sessionId == w.calls[call].sessionId && cookie.signedAt <= w.calls[call].at &&
      Accepted(cookie, w.now, maxAge) ==>
      Revoked(w.marks, w.now, cookie.sessionId)
  }

  /** Every cookie signed up to the revocation is too old for the signer. */
  predicate Lapsed(w: World, r: Revocation, maxAge: nat) {
    w.now / SECOND - r.at / SECOND > maxAge
  }

  lemma {:induction false} RunOn(events: seq<Event>, later: seq<Event>, ttl: nat, call: nat)
    requires call in Run(events, ttl).calls
    ensures var w, after := Run(events, ttl), Run(events + later, ttl);
      && w.now <= after.now && call in after.calls
      && after.calls[call].sessionId == w.calls[call].sessionId && after.calls[call].at == w.calls[call].at
      && (w.calls[call].took ==> after.calls[call].took)
    decreases |later|
  {
    if later == [] {
      assert events + later == events;
    } else {
      RunOn(events, later[..|later| - 1], ttl, call);
      assert (events + later)[..|events + later| - 1] == events + later[..|later| - 1];
    }
  }

  /** For a session that was signed again after an earlier revocation, the second step of
      this one decides: it keeps its promise from then on exactly when it found the mark,
      which is what `EXPIRE` answers, or when the cookies it is about have lapsed already. */
  lemma {:induction false} SecondStepDecides(events: seq<Event>, call: nat, ttl: nat, maxAge: nat)
    requires ttl > maxAge && call in Run(events, ttl).calls
    ensures var done := events + [Expire(call)];
      var w := Run(done, ttl);
      && call in w.calls
      && (forall later :: call in Run(done + later, ttl).calls)
      && ((forall later :: RevocationHolds(Run(done + later, ttl), call, maxAge)) <==>
          (w.calls[call].took || Lapsed(w, w.calls[call], maxAge)))
  {
    var done := events + [Expire(call)];
    RunOn(events, [Expire(call)], ttl, call);
    var w := Run(done, ttl);
    var r := w.calls[call];
    forall later ensures call in Run(done + later, ttl).calls {
      RunOn(done, later, ttl, call);
    }
    if r.took || Lapsed(w, r, maxAge) {
      forall later ensures RevocationHolds(Run(done + later, ttl), call, maxAge) {
        KeepsHolding(done, later, call, ttl, maxAge);
      }
    } else {
      assert done[..|done| - 1] == events && done[|done| - 1] == Expire(call);
      assert done + [] == done;
      assert Accepted(Cookie(r.sessionId, r.at), w.now, maxAge) by {
        MarksAreHeld(done, ttl);
        assert Held(w, r, ttl);
      }
      assert !RevocationHolds(Run(done + [], ttl), call, maxAge);
    }
  }

  lemma {:induction false} KeepsHolding(done: seq<Event>, later: seq<Event>, call: nat, ttl: nat, maxAge: nat)
    requires ttl > maxAge && call in Run(done, ttl).calls
    requires Run(done, ttl).calls[call].took || Lapsed(Run(done, ttl), Run(done, ttl).calls[call], maxAge)
    ensures call in Run(done + later, ttl).calls && RevocationHolds(Run(done + later, ttl), call, maxAge)
  {
    RunOn(done, later, ttl, call);
    MarksAreHeld(done + later, ttl);
    var w := Run(done + later, ttl);
    forall cookie: Cookie | cookie.sessionId == w.calls[call].sessionId &&
        cookie.signedAt <= w.calls[call].at && Accepted(cookie, w.now, maxAge)
      ensures Revoked(w.marks, w.now, cookie.sessionId)
    {
      if Run(done, ttl).calls[call].took {
        TookIsRevoked(w, call, cookie, ttl, maxAge);
      }
    }
  }
}
