/** Accepting a one-time code at most once: the conditional update of `totp_last_step`,
    under any interleaving of the sessions that run it. */
module TotpClaim {
  import opened Json

  type User = string
  type SessionId = nat

  /** `TOTPHelper.matching_step`: the 30-second step a code belongs to, inside the window
      around the time, if there is one. */
  type Matching = (string, string, int) -> Option<int>

  /** The copy of the row a session loaded, at any time before it claims. */
  datatype Principal = Principal(id: User, secret: string, lastStep: Option<int>)

  ghost predicate Increasing(steps: seq<int>) {
    forall i, j :: 0 <= i < j < |steps| ==> steps[i] < steps[j]
  }

  function Newest(steps: seq<int>, first: Option<int>): Option<int> {
    if steps == [] then first else Some(steps[|steps| - 1])
  }

  /** One row of the user table: the committed step, the transaction that holds the row and
      the steps it has written. `first` is the step the row held before the history of
      committed claims, `accepted`, begins. */
  datatype Row = Row(first: Option<int>, accepted: seq<int>, lastStep: Option<int>, holder: Option<SessionId>,
                     pending: seq<int>) {

    predicate HeldByOther(sid: SessionId) {
      holder.Some? && holder.value != sid
    }

    /** What an `UPDATE` that holds the row reads: its own write, else the committed step. */
    function Visible(): Option<int> {
      if pending == [] then lastStep else Some(pending[|pending| - 1])
    }

    /** `totp_last_step IS NULL OR totp_last_step < step`. */
    predicate Matches(step: int) {
      Visible().None? || Visible().value < step
    }

    function Claimed(sid: SessionId, step: int): Row {
      if Matches(step) then this.(holder := Some(sid), pending := pending + [step]) else this
    }

    function Committed(sid: SessionId): Row {
      if holder == Some(sid) then Row(first, accepted + pending, Visible(), None, []) else this
    }

    function RolledBack(sid: SessionId): Row {
      if holder == Some(sid) then this.(holder := None, pending := []) else this
    }

    /** The committed step is the newest accepted one, an open transaction only adds newer
        ones, and only a held row has any. */
    ghost predicate Valid() {
      && Increasing(accepted + pending)
      && lastStep == Newest(accepted, first)
      && (first.Some? && accepted + pending != [] ==> first.value < (accepted + pending)[0])
      && (holder.None? ==> pending == [])
    }

    /** Newer than every step accepted or claimed for the user, and than the first one. */
    ghost predicate Fresh(step: int) {
      && (first.Some? ==> first.value < step)
      && forall i :: 0 <= i < |accepted + pending| ==> (accepted + pending)[i] < step
    }
  }

  type Store = map<User, Row>

  ghost predicate Valid(store: Store) {
    forall user :: user in store ==> store[user].Valid()
  }

  /** The one comparison with the row decides freshness against the whole history. */
  lemma MatchesIsFresh(row: Row, step: int)
    requires row.Valid()
    ensures row.Matches(step) <==> row.Fresh(step)
  {
    var steps := row.accepted + row.pending;
    assert row.Visible() == Newest(steps, row.first);
    if steps != [] {
      assert forall i :: 0 <= i < |steps| ==> steps[i] <= steps[|steps| - 1];
    }
  }

  /** The row as it is after one step: still in order, with the same beginning. */
  ghost predicate Continues(before: Row, after: Row) {
    after.Valid() && after.first == before.first && before.accepted <= after.accepted
  }

  lemma ClaimKeepsRow(row: Row, sid: SessionId, step: int)
    requires row.Valid()
    ensures Continues(row, row.Claimed(sid, step))
  {
    MatchesIsFresh(row, step);
    var after := row.Claimed(sid, step);
    if row.Matches(step) {
      assert after.accepted + after.pending == (row.accepted + row.pending) + [step];
    }
  }

  lemma CommitKeepsRow(row: Row, sid: SessionId)
    requires row.Valid()
    ensures Continues(row, row.Committed(sid))
  {
    var after := row.Committed(sid);
    assert row.holder == Some(sid) ==> after.accepted + after.pending == row.accepted + row.pending;
  }

  lemma RollbackKeepsRow(row: Row, sid: SessionId)
    requires row.Valid()
    ensures Continues(row, row.RolledBack(sid))
  {
    var after := row.RolledBack(sid);
    var steps := row.accepted + row.pending;
    assert after.accepted + after.pending <= steps;
    if row.accepted != [] {
      assert steps[0] == row.accepted[0];
    }
    forall i, j | 0 <= i < j < |after.accepted + after.pending|
      ensures (after.accepted + after.pending)[i] < (after.accepted + after.pending)[j]
    {
      assert steps[i] < steps[j];
    }
  }

  // ----- Every interleaving -----

  datatype Event =
    | Claim(sid: SessionId, principal: Principal, code: string, now: int)
    | Commit(sid: SessionId)
    | Rollback(sid: SessionId)

  /** The step a claim accepts, when its verdict is true. */
  function AcceptedStep(matching: Matching, store: Store, principal: Principal, code: string, now: int): Option<int> {
    if principal.secret == "" || principal.id !in store then None else
      var step := matching(principal.secret, code, now);
      if step.Some? && store[principal.id].Matches(step.value) then step else None
  }

  /** A claim on a row another transaction holds waits: it is not its turn. */
  predicate Waits(store: Store, e: Event) {
    e.Claim? && e.principal.id in store && store[e.principal.id].HeldByOther(e.sid)
  }

  function Next(matching: Matching, store: Store, e: Event): Store {
    match e
    case Claim(sid, principal, code, now) =>
      var step := AcceptedStep(matching, store, principal, code, now);
      if Waits(store, e) || step.None? then store
      else store[principal.id := store[principal.id].Claimed(sid, step.value)]
    case Commit(sid) => map user | user in store :: store[user].Committed(sid)
    case Rollback(sid) => map user | user in store :: store[user].RolledBack(sid)
  }

  function Run(matching: Matching, store: Store, events: seq<Event>): Store {
    if events == [] then store
    else Next(matching, Run(matching, store, events[..|events| - 1]), events[|events| - 1])
  }

  lemma NextKeepsValid(matching: Matching, store: Store, e: Event)
    requires Valid(store)
    ensures Valid(Next(matching, store, e))
    ensures Next(matching, store, e).Keys == store.Keys
    ensures forall user :: user in store ==> Continues(store[user], Next(matching, store, e)[user])
  {
    match e
    case Claim(sid, principal, code, now) =>
      var step := AcceptedStep(matching, store, principal, code, now);
      if step.Some? {
        ClaimKeepsRow(store[principal.id], sid, step.value);
      }
    case Commit(sid) =>
      forall user | user in store ensures Continues(store[user], store[user].Committed(sid)) {
        CommitKeepsRow(store[user], sid);
      }
    case Rollback(sid) =>
      forall user | user in store ensures Continues(store[user], store[user].RolledBack(sid)) {
        RollbackKeepsRow(store[user], sid);
      }
  }

  lemma {:induction false} RunKeepsValid(matching: Matching, store: Store, events: seq<Event>)
    requires Valid(store)
    ensures Valid(Run(matching, store, events))
    ensures Run(matching, store, events).Keys == store.Keys
    ensures forall user :: user in store ==> Run(matching, store, events)[user].first == store[user].first
    decreases |events|
  {
    if events == [] {
    } else {
      RunKeepsValid(matching, store, events[..|events| - 1]);
      NextKeepsValid(matching, Run(matching, store, events[..|events| - 1]), events[|events| - 1]);
    }
  }

  /** A table with no transaction open and no claim accepted yet. */
  function Initial(lastStep: map<User, Option<int>>): Store {
    map user | user in lastStep :: Row(lastStep[user], [], lastStep[user], None, [])
  }

  // ----- The history, told from the events and their verdicts -----

  /** The verdict on a claim whose turn it is: there is a secret, the code matches a step, and
      the row holds none or an older one. */
  ghost predicate Verdict(matching: Matching, store: Store, e: Event) {
    && e.Claim? && !Waits(store, e)
    && AcceptedStep(matching, store, e.principal, e.code, e.now).Some?
  }

  ghost function StepOf(matching: Matching, e: Event): int
    requires e.Claim? && matching(e.principal.secret, e.code, e.now).Some?
  {
    matching(e.principal.secret, e.code, e.now).value
  }

  /** The steps of the claims on `user` that session `sid` has been told are accepted since it
      last committed or rolled back. */
  ghost function Claimed(matching: Matching, store: Store, events: seq<Event>, user: User, sid: SessionId): seq<int> {
    if events == [] then [] else
      var earlier, last := events[..|events| - 1], events[|events| - 1];
      var soFar := Claimed(matching, store, earlier, user, sid);
      match last
      case Claim(session, principal, _, _) =>
        if session == sid && principal.id == user && Verdict(matching, Run(matching, store, earlier), last)
        then soFar + [StepOf(matching, last)] else soFar
      case Commit(session) => if session == sid then [] else soFar
      case Rollback(session) => if session == sid then [] else soFar
  }

  /** The steps of the claims whose verdict was true and whose session then committed. */
  ghost function Granted(matching: Matching, store: Store, events: seq<Event>, user: User): seq<int> {
    if events == [] then [] else
      var earlier, last := events[..|events| - 1], events[|events| - 1];
      Granted(matching, store, earlier, user) +
      if last.Commit? then Claimed(matching, store, earlier, user, last.sid) else []
  }

  /** The row holds what the verdicts said: committed, the granted steps, and for the session
      that holds it, the ones it has claimed. */
  ghost predicate Tells(matching: Matching, store: Store, events: seq<Event>, user: User, row: Row) {
    && row.accepted == Granted(matching, store, events, user)
    && (row.holder.Some? ==> row.pending != [])
    && forall sid: SessionId :: Claimed(matching, store, events, user, sid) ==
         if row.holder == Some(sid) then row.pending else []
  }

  lemma {:induction false} RowTellsVerdicts(matching: Matching, lastStep: map<User, Option<int>>,
      events: seq<Event>, user: User)
    requires user in lastStep
    ensures user in Run(matching, Initial(lastStep), events)
    ensures Tells(matching, Initial(lastStep), events, user, Run(matching, Initial(lastStep), events)[user])
    decreases |events|
  {
    RunKeepsValid(matching, Initial(lastStep), events);
    if events == [] {
    } else {
      var earlier, last := events[..|events| - 1], events[|events| - 1];
      assert events == earlier + [last];
      RowTellsVerdicts(matching, lastStep, earlier, user);
      RunKeepsValid(matching, Initial(lastStep), earlier);
      OneMoreVerdict(matching, Initial(lastStep), earlier, last, user);
    }
  }

  /** What one event does to one row. */
  lemma NextRow(matching: Matching, store: Store, e: Event, user: User)
    requires user in store
    ensures user in Next(matching, store, e)
    ensures var before, after := store[user], Next(matching, store, e)[user];
      if e.Claim? then
        if e.principal.id == user && Verdict(matching, store, e)
        then after == before.(holder := Some(e.sid), pending := before.pending + [StepOf(matching, e)])
        else after == before
      else if before.holder != Some(e.sid) then after == before
      else && after.holder == None && after.pending == []
           && after.accepted == before.accepted + if e.Commit? then before.pending else []
  {
  }

  lemma {:induction false} OneMoreClaimed(matching: Matching, store: Store, events: seq<Event>, e: Event, user: User,
      sid: SessionId)
    ensures Claimed(matching, store, events + [e], user, sid) ==
            if e.sid != sid then Claimed(matching, store, events, user, sid)
            else if !e.Claim? then []
            else if e.principal.id == user && Verdict(matching, Run(matching, store, events), e)
            then Claimed(matching, store, events, user, sid) + [StepOf(matching, e)]
            else Claimed(matching, store, events, user, sid)
  {
    assert (events + [e])[..|events|] == events;
  }

  lemma {:induction false} OneMoreGranted(matching: Matching, store: Store, events: seq<Event>, e: Event, user: User)
    ensures Granted(matching, store, events + [e], user) ==
            Granted(matching, store, events, user) +
                if e.Commit? then Claimed(matching, store, events, user, e.sid) else []
    ensures Run(matching, store, events + [e]) == Next(matching, Run(matching, store, events), e)
  {
    assert (events + [e])[..|events|] == events;
  }

  lemma {:induction false} OneMoreVerdict(matching: Matching, store: Store, events: seq<Event>, e: Event, user: User)
    requires Valid(Run(matching, store, events)) && user in Run(matching, store, events)
    requires Tells(matching, store, events, user, Run(matching, store, events)[user])
    ensures user in Run(matching, store, events + [e])
    ensures Tells(matching, store, events + [e], user, Run(matching, store, events + [e])[user])
  {
    var soFar := Run(matching, store, events);
    var before, after := soFar[user], Next(matching, soFar, e)[user];
    assert before.Valid();
    NextRow(matching, soFar, e, user);
    OneMoreGranted(matching, store, events, e, user);
    forall sid: SessionId
      ensures Claimed(matching, store, events + [e], user, sid) ==
              if after.holder == Some(sid) then after.pending else []
    {
      OneMoreClaimed(matching, store, events, e, user, sid);
      assert Claimed(matching, store, events, user, sid) == if before.holder == Some(sid) then before.pending else [];
    }
    assert Claimed(matching, store, events, user, e.sid) ==
           if before.holder == Some(e.sid) then before.pending else [];
  }

  lemma RowIsInOrder(row: Row)
    requires row.Valid()
    ensures Increasing(row.accepted) && row.lastStep == Newest(row.accepted, row.first)
    ensures row.first.Some? && row.accepted != [] ==> row.first.value < row.accepted[0]
  {
    var steps := row.accepted + row.pending;
    forall i, j | 0 <= i < j < |row.accepted| ensures row.accepted[i] < row.accepted[j] {
      assert steps[i] < steps[j];
    }
    if row.accepted != [] {
      assert steps[0] == row.accepted[0];
    }
  }

  /** Over any run, the claims on a user whose verdict was true and whose session committed
      are of strictly increasing steps, newer than the one the row started with, so no code is
      accepted twice (RFC 6238, section 5.2); the row has recorded exactly those, and holds
      the last. */
  lemma {:induction false} NoStepIsAcceptedTwice(matching: Matching, lastStep: map<User, Option<int>>,
      events: seq<Event>, user: User)
    requires user in lastStep
    ensures user in Run(matching, Initial(lastStep), events)
    ensures var row, steps := Run(matching, Initial(lastStep), events)[user],
            Granted(matching, Initial(lastStep), events, user);
      && Increasing(steps)
      && (lastStep[user].Some? && steps != [] ==> lastStep[user].value < steps[0])
      && (forall i, j :: 0 <= i < |steps| && 0 <= j < |steps| && steps[i] == steps[j] ==> i == j)
      && row.accepted == steps
      && row.lastStep == if steps == [] then lastStep[user] else Some(steps[|steps| - 1])
  {
    RunKeepsValid(matching, Initial(lastStep), events);
    RowTellsVerdicts(matching, lastStep, events, user);
    RowIsInOrder(Run(matching, Initial(lastStep), events)[user]);
  }

  /** A claim waits exactly while another session has been told yes for the same user and has
      neither committed nor rolled back. */
  lemma {:induction false} WaitsExactlyForOthers(matching: Matching, lastStep: map<User, Option<int>>,
      events: seq<Event>, e: Event)
    requires e.Claim? && e.principal.id in lastStep
    ensures Waits(Run(matching, Initial(lastStep), events), e) <==>
            exists sid: SessionId :: sid != e.sid &&
                Claimed(matching, Initial(lastStep), events, e.principal.id, sid) != []
  {
    RowTellsVerdicts(matching, lastStep, events, e.principal.id);
    var row := Run(matching, Initial(lastStep), events)[e.principal.id];
    if row.holder.Some? {
      assert Claimed(matching, Initial(lastStep), events, e.principal.id, row.holder.value) == row.pending;
    }
  }

  /** A code whose claim was granted, in any run, is refused after any further run. */
  lemma {:induction false} GrantedCodeIsSpent(matching: Matching, lastStep: map<User, Option<int>>,
      events: seq<Event>, more: seq<Event>, principal: Principal, code: string, now: int)
    requires principal.id in lastStep && matching(principal.secret, code, now).Some?
    requires matching(principal.secret, code, now).value in
               Granted(matching, Initial(lastStep), events, principal.id)
    ensures AcceptedStep(matching, Run(matching, Run(matching, Initial(lastStep), events), more),
                         principal, code, now).None?
  {
    RunKeepsValid(matching, Initial(lastStep), events);
    RowTellsVerdicts(matching, lastStep, events, principal.id);
    AcceptedCodeIsSpent(matching, Run(matching, Initial(lastStep), events), more, principal, code, now);
  }

  /** A claim that was told yes makes the next one of that step refused, whether the session
      asks again, whose turn it stays, or another one asks once it has committed. */
  lemma {:induction false} VerdictSpendsStep(matching: Matching, store: Store, e: Event, again: Event)
    requires Valid(store) && Verdict(matching, store, e) && again.Claim?
    requires again.principal.id == e.principal.id
    requires matching(again.principal.secret, again.code, again.now) == Some(StepOf(matching, e))
    ensures !Verdict(matching, Next(matching, store, e), again)
    ensures !Verdict(matching, Next(matching, Next(matching, store, e), Commit(e.sid)), again)
  {
    var row := store[e.principal.id];
    assert row.Valid();
  }

  /** A code that was accepted is refused from then on, whatever happens in between. */
  lemma {:induction false} AcceptedCodeIsSpent(matching: Matching, store: Store, events: seq<Event>,
                            principal: Principal, code: string, now: int)
    requires Valid(store) && principal.id in store
    requires matching(principal.secret, code, now).Some?
    requires matching(principal.secret, code, now).value in store[principal.id].accepted
    ensures AcceptedStep(matching, Run(matching, store, events), principal, code, now).None?
  {
    var step := matching(principal.secret, code, now).value;
    RunKeepsValid(matching, store, events);
    AcceptedOnlyGrows(matching, store, events, principal.id);
    var row := Run(matching, store, events)[principal.id];
    MatchesIsFresh(row, step);
    var i :| 0 <= i < |store[principal.id].accepted| && store[principal.id].accepted[i] == step;
    assert (row.accepted + row.pending)[i] == step;
  }

  lemma {:induction false} AcceptedOnlyGrows(matching: Matching, store: Store, events: seq<Event>, user: User)
    requires Valid(store) && user in store
    ensures user in Run(matching, store, events)
    ensures store[user].accepted <= Run(matching, store, events)[user].accepted
    decreases |events|
  {
    if events == [] {
    } else {
      RunKeepsValid(matching, store, events[..|events| - 1]);
      AcceptedOnlyGrows(matching, store, events[..|events| - 1], user);
      NextKeepsValid(matching, Run(matching, store, events[..|events| - 1]), events[|events| - 1]);
    }
  }

  /** Two copies of the row with the same secret get the same verdict and leave the same
      table, however stale the step either of them carries. */
  lemma StaleCopyIsHarmless(matching: Matching, store: Store, sid: SessionId, copy: Principal, stale: Principal,
                            code: string, now: int)
    requires copy.id == stale.id && copy.secret == stale.secret
    ensures AcceptedStep(matching, store, copy, code, now) == AcceptedStep(matching, store, stale, code, now)
    ensures Next(matching, store, Claim(sid, copy, code, now)) == Next(matching, store, Claim(sid, stale, code, now))
  {
  }

  /** A claim that is rolled back leaves the table as it found it. */
  lemma RollbackUndoesClaim(matching: Matching, store: Store, sid: SessionId, principal: Principal, code: string,
      now: int)
    requires Valid(store) && forall user :: user in store ==> store[user].holder != Some(sid)
    ensures Next(matching, Next(matching, store, Claim(sid, principal, code, now)), Rollback(sid)) == store
  {
    var claimed := Next(matching, store, Claim(sid, principal, code, now));
    forall user | user in store ensures claimed[user].RolledBack(sid) == store[user] {
    }
  }

  // ----- The table, acting step by step -----

  class UserTable {
    var rows: Store
    const matching: Matching

    constructor (lastStep: map<User, Option<int>>, matching: Matching)
      ensures Valid(rows) && rows == Initial(lastStep) && this.matching == matching
    {
      rows := Initial(lastStep);
      this.matching := matching;
    }

    /** `claim_mfa_step`: the statement is executed here and committed by the caller. The
        row count is the verdict. */
    method ClaimMfaStep(sid: SessionId, principal: Principal, code: string, now: int) returns (verdict: bool)
      requires Valid(rows) && !Waits(rows, Claim(sid, principal, code, now))
      modifies this
      ensures Valid(rows) && rows == Next(matching, old(rows), Claim(sid, principal, code, now))
      ensures verdict <==>
        && principal.secret != "" && principal.id in old(rows)
        && matching(principal.secret, code, now).Some?
        && old(rows)[principal.id].Fresh(matching(principal.secret, code, now).value)
      ensures verdict == Verdict(matching, old(rows), Claim(sid, principal, code, now))
      ensures verdict ==>
        && rows[principal.id].Visible() == matching(principal.secret, code, now)
        && !Verdict(matching, rows, Claim(sid, principal, code, now))
    {
      verdict := false;
      if principal.secret == "" {
        return;
      }
      var step := matching(principal.secret, code, now);
      if step.None? {
        return;
      }
      if principal.id in rows {
        MatchesIsFresh(rows[principal.id], step.value);
        NextKeepsValid(matching, rows, Claim(sid, principal, code, now));
        if rows[principal.id].Matches(step.value) {
          rows := rows[principal.id := rows[principal.id].Claimed(sid, step.value)];
          verdict := true;
        }
      }
    }

    method CommitTransaction(sid: SessionId)
      requires Valid(rows)
      modifies this
      ensures Valid(rows) && rows == Next(matching, old(rows), Commit(sid))
    {
      NextKeepsValid(matching, rows, Commit(sid));
      rows := map user | user in rows :: rows[user].Committed(sid);
    }

    method RollbackTransaction(sid: SessionId)
      requires Valid(rows)
      modifies this
      ensures Valid(rows) && rows == Next(matching, old(rows), Rollback(sid))
    {
      NextKeepsValid(matching, rows, Rollback(sid));
      rows := map user | user in rows :: rows[user].RolledBack(sid);
    }
  }
}
