/** Whole runs of the credential store: purging is invisible, and spent, revoked or
    orphaned credentials stay dead (backend/app/core/accounts_store.py:509-726, 974-1070). */
module CredentialRuns {
  import opened Common
  import opened CredentialPurge
  import opened CredentialRules
  import opened CredentialStore

  // ---- purging ---------------------------------------------------------------------------

  predicate StaleNaive(e: Stamp, now: int) { e.Naive? && e.at <= now }

  predicate NaiveAccount(a: Account, now: int) {
    || (a.verify.hash.Some? && StaleNaive(a.verify.expires, now))
    || (a.reset.hash.Some? && StaleNaive(a.reset.expires, now))
  }

  /** Some stored credential carries an expiry without an offset, already past if read as UTC. */
  predicate ExpiredNaive(s: Store, now: int) {
    || (exists t :: t in s.tokens && StaleNaive(t.expires, now))
    || (exists a :: a in s.accounts && NaiveAccount(a, now))
  }

  lemma {:induction false} LiveIsSwept(tokens: seq<LoginToken>, now: int)
    requires forall t :: t in tokens ==> !StaleNaive(t.expires, now)
    ensures Live(tokens, now) == SweptTokens(tokens, now)
  {
    if tokens != [] {
      assert tokens[0] in tokens && forall t :: t in tokens[1..] ==> t in tokens;
      LiveIsSwept(tokens[1..], now);
    }
  }

  lemma ClearedIsSwept(accounts: seq<Account>, now: int)
    requires forall a :: a in accounts ==> !NaiveAccount(a, now)
    ensures Cleared(accounts, now) == SweptAccounts(accounts, now)
  {
    forall i | 0 <= i < |accounts|
      ensures Cleared(accounts, now)[i] == SweptAccounts(accounts, now)[i]
    {
      assert accounts[i] in accounts;
    }
  }

  lemma {:induction false} SweptLater(tokens: seq<LoginToken>, past: int, now: int)
    requires past <= now
    ensures SweptTokens(SweptTokens(tokens, past), now) == SweptTokens(tokens, now)
  {
    if tokens != [] {
      SweptLater(tokens[1..], past, now);
      var rest := SweptTokens(tokens[1..], past);
      assert ([tokens[0]] + rest)[1..] == rest;
    }
  }

  lemma SweptAccountsLater(accounts: seq<Account>, past: int, now: int)
    requires past <= now
    ensures SweptAccounts(SweptAccounts(accounts, past), now) == SweptAccounts(accounts, now)
  {
  }

  lemma AlikeLater(s: Store, p: Store, past: int, now: int)
    requires Alike(s, p, past) && past <= now
    ensures Alike(s, p, now)
  {
    SweptLater(s.tokens, past, now);
    SweptLater(p.tokens, past, now);
    SweptAccountsLater(s.accounts, past, now);
    SweptAccountsLater(p.accounts, past, now);
  }

  /** Purging when nothing naive has expired drops just what every lookup refuses. */
  lemma PurgeIsASweep(s: Store, now: int)
    requires !ExpiredNaive(s, now)
    ensures Alike(s, Purged(s, now), now)
  {
    LiveIsSwept(s.tokens, now);
    ClearedIsSwept(s.accounts, now);
    SweptLater(s.tokens, now, now);
    SweptAccountsLater(s.accounts, now, now);
  }

  lemma {:induction false} LiveOfSwept(tokens: seq<LoginToken>, now: int)
    ensures Live(SweptTokens(tokens, now), now) == Live(tokens, now)
  {
    if tokens != [] {
      LiveOfSwept(tokens[1..], now);
      var rest := SweptTokens(tokens[1..], now);
      assert ([tokens[0]] + rest)[1..] == rest;
    }
  }

  lemma ClearedOfSwept(accounts: seq<Account>, now: int)
    ensures Cleared(SweptAccounts(accounts, now), now) == Cleared(accounts, now)
  {
  }

  /** A purge erases any difference that was only lapsed material. */
  lemma PurgeMerges(s: Store, p: Store, now: int)
    requires Alike(s, p, now)
    ensures Purged(s, now) == Purged(p, now)
  {
    LiveOfSwept(s.tokens, now);
    LiveOfSwept(p.tokens, now);
    ClearedOfSwept(s.accounts, now);
    ClearedOfSwept(p.accounts, now);
  }

  lemma AlikeAfter(s: Store, p: Store, e: Event)
    requires WellFormed(s) && WellFormed(p) && Alike(s, p, e.now) && (e.Do? ==> OpFresh(s, e.op))
    ensures Alike(After(s, e), After(p, e), e.now)
    ensures e.Do? ==> OpFresh(p, e.op) && Step(s, e.op, e.now).1 == Step(p, e.op, e.now).1
  {
    match e
    case Do(op, now) => LapsedIsInvisible(s, p, op, now);
    case Purge(now) => PurgeMerges(s, p, now);
  }

  /** Stores that differ only in lapsed material answer every later run alike. */
  lemma {:induction false} AlikeForever(s: Store, p: Store, now: int, later: seq<Event>)
    requires WellFormed(s) && WellFormed(p) && Alike(s, p, now) && Orderly(s, now, later)
    ensures Answers(s, later) == Answers(p, later)
    decreases |later|
  {
    if later != [] {
      AlikeLater(s, p, now, later[0].now);
      AlikeAfter(s, p, later[0]);
      AfterKeepsWellFormed(s, later[0]);
      AfterKeepsWellFormed(p, later[0]);
      AlikeForever(After(s, later[0]), After(p, later[0]), later[0].now, later[1..]);
    }
  }

  ghost predicate PurgeUnobservable(s: Store, now: int) {
    forall later :: Orderly(s, now, later) ==> Answers(Purged(s, now), later) == Answers(s, later)
  }

  lemma {:induction false} VerifyHeld(accounts: seq<Account>, a: Account)
    requires DistinctVerify(accounts) && a in accounts && a.verify.hash.Some?
    ensures AccountByVerify(accounts, a.verify.hash.value) == Some(a)
  {
    if accounts[0] != a {
      VerifyHeld(accounts[1..], a);
    }
  }

  lemma {:induction false} ResetHeld(accounts: seq<Account>, a: Account)
    requires DistinctReset(accounts) && a in accounts && a.reset.hash.Some?
    ensures AccountByReset(accounts, a.reset.hash.value) == Some(a)
  {
    if accounts[0] != a {
      ResetHeld(accounts[1..], a);
    }
  }

  lemma {:induction false} TokenHeld(tokens: seq<LoginToken>, t: LoginToken)
    requires DistinctTokens(tokens) && t in tokens
    ensures TokenAt(tokens, t.hash) == Some(t)
  {
    if tokens[0] != t {
      TokenHeld(tokens[1..], t);
    }
  }

  // The call that tells: the lookup of a stale naive credential fails before the purge
  // and just finds nothing after it.

  lemma TokenTells(s: Store, now: int, t: LoginToken)
    requires WellFormed(s) && t in s.tokens && StaleNaive(t.expires, now)
    ensures Step(s, LookupLogin(t.hash), now).1 == TypeFailure
    ensures Step(Purged(s, now), LookupLogin(t.hash), now).1 == Nothing
  {
    TokenHeld(s.tokens, t);
    LiveKeeps(s.tokens, now);
    NoSuchToken(Live(s.tokens, now), t.hash);
    forall u | u in Live(s.tokens, now) ensures u.hash != t.hash {
      TokenHeld(s.tokens, u);
    }
  }

  lemma VerifyTells(s: Store, now: int, a: Account)
    requires WellFormed(s) && a in s.accounts && a.verify.hash.Some? && StaleNaive(a.verify.expires, now)
    ensures Step(s, ConfirmVerify(a.verify.hash.value), now).1 == TypeFailure
    ensures Step(Purged(s, now), ConfirmVerify(a.verify.hash.value), now).1 == Nothing
  {
    VerifyHeld(s.accounts, a);
    var ys := Cleared(s.accounts, now);
    forall y | y in ys ensures y.verify.hash != a.verify.hash {
      var i :| 0 <= i < |ys| && ys[i] == y;
      if s.accounts[i].verify.hash == a.verify.hash {
        VerifyHeld(s.accounts, s.accounts[i]);
      }
    }
    NobodyHolds(ys, a.verify.hash.value);
  }

  lemma ResetTells(s: Store, now: int, a: Account, password: string)
    requires WellFormed(s) && a in s.accounts && a.reset.hash.Some? && StaleNaive(a.reset.expires, now)
    ensures Step(s, ConfirmReset(a.reset.hash.value, password), now).1 == TypeFailure
    ensures Step(Purged(s, now), ConfirmReset(a.reset.hash.value, password), now).1 == Nothing
  {
    ResetHeld(s.accounts, a);
    var ys := Cleared(s.accounts, now);
    forall y | y in ys ensures y.reset.hash != a.reset.hash {
      var i :| 0 <= i < |ys| && ys[i] == y;
      if s.accounts[i].reset.hash == a.reset.hash {
        ResetHeld(s.accounts, s.accounts[i]);
      }
    }
    NobodyHolds(ys, a.reset.hash.value);
  }

  lemma NaiveTells(s: Store, now: int)
    requires WellFormed(s) && ExpiredNaive(s, now)
    ensures !PurgeUnobservable(s, now)
  {
    var op: Op;
    if t :| t in s.tokens && StaleNaive(t.expires, now) {
      op := LookupLogin(t.hash);
      TokenTells(s, now, t);
    } else {
      var a :| a in s.accounts && NaiveAccount(a, now);
      if a.verify.hash.Some? && StaleNaive(a.verify.expires, now) {
        op := ConfirmVerify(a.verify.hash.value);
        VerifyTells(s, now, a);
      } else {
        op := ConfirmReset(a.reset.hash.value, "");
        ResetTells(s, now, a, "");
      }
    }
    var later := [Do(op, now)];
    assert Orderly(After(s, later[0]), now, later[1..]);
    assert Orderly(s, now, later);
    assert Answers(s, later)[0] == TypeFailure;
    assert Answers(Purged(s, now), later)[0] == Nothing;
  }

  /** No later caller can tell that the store was purged, exactly when nothing stored
      carries a past expiry without an offset. */
  lemma PurgeUnobservableExactly(s: Store, now: int)
    requires WellFormed(s)
    ensures PurgeUnobservable(s, now) <==> !ExpiredNaive(s, now)
  {
    if ExpiredNaive(s, now) {
      NaiveTells(s, now);
    } else {
      PurgeIsASweep(s, now);
      PurgeKeepsWellFormed(s, now);
      forall later | Orderly(s, now, later) ensures Answers(Purged(s, now), later) == Answers(s, later) {
        AlikeForever(s, Purged(s, now), now, later);
      }
    }
  }

  // ---- purging at any points of a run ---------------------------------------------------------

  /** No stamp without an offset: true of everything the store itself writes. */
  predicate OffsetStamps(s: Store) { OffsetTokens(s.tokens) && OffsetAccounts(s.accounts) }

  predicate OffsetTokens(tokens: seq<LoginToken>) { forall t :: t in tokens ==> !t.expires.Naive? }

  predicate OffsetAccounts(accounts: seq<Account>) {
    forall a :: a in accounts ==> !a.verify.expires.Naive? && !a.reset.expires.Naive?
  }

  function WithoutPurges(events: seq<Event>): seq<Event> {
    if events == [] then []
    else if events[0].Purge? then WithoutPurges(events[1..])
    else [events[0]] + WithoutPurges(events[1..])
  }

  lemma {:induction false} ClosingKeepsOffsets(tokens: seq<LoginToken>, account: string, keep: string)
    requires OffsetTokens(tokens)
    ensures OffsetTokens(CloseSessions(tokens, account, keep))
  {
    CloseKeeps(tokens, account, keep);
  }

  lemma StepKeepsTokenOffsets(s: Store, op: Op, now: int)
    requires OffsetTokens(s.tokens)
    ensures OffsetTokens(Step(s, op, now).0.tokens)
  {
    match op
    case ConfirmReset(raw, _) =>
      var a := AccountByReset(s.accounts, raw);
      if a.Some? {
        ClosingKeepsOffsets(s.tokens, a.value.id, "");
      }
    case ChangePassword(account, _, keep) => ClosingKeepsOffsets(s.tokens, account, keep);
    case DeleteAccount(account) => ClosingKeepsOffsets(s.tokens, account, "");
    case _ =>
  }

  lemma {:induction false} ChangeKeepsOffsets(accounts: seq<Account>, c: Change)
    requires OffsetAccounts(accounts) && (c.Added? ==> OffsetAccounts([c.account]))
    ensures OffsetAccounts(Changed(accounts, c))
  {
    match c
    case Unchanged =>
    case Added(a) =>
      assert a in [a];
    case Dropped(id) => DropKeeps(accounts, id);
    case RowEdited(id, e) =>
      var next := WithAccount(accounts, id, e);
      forall a | a in next ensures !a.verify.expires.Naive? && !a.reset.expires.Naive? {
        var i :| 0 <= i < |next| && next[i] == a;
        assert accounts[i] in accounts;
      }
  }

  lemma StepKeepsOffsets(s: Store, op: Op, now: int)
    requires WellFormed(s) && OffsetStamps(s)
    ensures OffsetStamps(Step(s, op, now).0)
  {
    StepKeepsTokenOffsets(s, op, now);
    StepChanges(s, op, now);
    ChangeKeepsOffsets(s.accounts, ChangeOf(s, op, now));
  }

  lemma PurgeKeepsOffsets(s: Store, now: int)
    requires OffsetStamps(s)
    ensures OffsetStamps(Purged(s, now))
  {
    LiveKeeps(s.tokens, now);
    var ys := Cleared(s.accounts, now);
    forall a | a in ys ensures !a.verify.expires.Naive? && !a.reset.expires.Naive? {
      var i :| 0 <= i < |ys| && ys[i] == a;
      assert s.accounts[i] in s.accounts;
    }
  }

  lemma {:induction false} PurgesMakeNoDifference(s: Store, p: Store, now: int, events: seq<Event>)
    requires WellFormed(s) && WellFormed(p) && OffsetStamps(s) && Alike(s, p, now) && Orderly(s, now, events)
    ensures Answers(s, events) == Answers(p, WithoutPurges(events))
    decreases |events|
  {
    if events != [] {
      var e := events[0];
      AlikeLater(s, p, now, e.now);
      AfterKeepsWellFormed(s, e);
      if e.Purge? {
        PurgeIsASweep(s, e.now);
        PurgeKeepsOffsets(s, e.now);
        PurgesMakeNoDifference(After(s, e), p, e.now, events[1..]);
      } else {
        AlikeAfter(s, p, e);
        AfterKeepsWellFormed(p, e);
        StepKeepsOffsets(s, e.op, e.now);
        PurgesMakeNoDifference(After(s, e), After(p, e), e.now, events[1..]);
        assert ([e] + WithoutPurges(events[1..]))[1..] == WithoutPurges(events[1..]);
      }
    }
  }

  /** Purging at any moments of any run of a store that wrote its own stamps changes no
      answer of that run. */
  lemma {:induction false} PurgesAreUnobservable(s: Store, now: int, events: seq<Event>)
    requires WellFormed(s) && OffsetStamps(s) && Orderly(s, now, events)
    ensures Answers(s, events) == Answers(s, WithoutPurges(events))
  {
    PurgesMakeNoDifference(s, s, now, events);
  }
}
