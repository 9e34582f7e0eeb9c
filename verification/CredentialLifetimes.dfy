/** How long a credential works, over every later run with purges anywhere in it
    (backend/app/core/accounts_store.py:509-560, 609-726, 974-999). */
module CredentialLifetimes {
  import opened Common
  import opened CredentialPurge
  import opened CredentialRules
  import opened CredentialRuns
  import opened CredentialStore

  datatype Kind = VerifyKind | ResetKind | LoginKind

  /** A credential that was minted and is no longer stored. */
  predicate Spent(s: Store, kind: Kind, h: string) {
    && h in s.minted
    && match kind
       case VerifyKind => forall a :: a in s.accounts ==> a.verify.hash != Some(h)
       case ResetKind => forall a :: a in s.accounts ==> a.reset.hash != Some(h)
       case LoginKind => forall t :: t in s.tokens ==> t.hash != h
  }

  predicate Uses(op: Op, kind: Kind, h: string) {
    match kind
    case VerifyKind => op == ConfirmVerify(h)
    case ResetKind => op.ConfirmReset? && op.raw == h
    case LoginKind => op == LookupLogin(h)
  }

  lemma SpentIsRefused(s: Store, op: Op, now: int, kind: Kind, h: string)
    requires Spent(s, kind, h) && Uses(op, kind, h)
    ensures Step(s, op, now).1 == Nothing
  {
    match kind
    case VerifyKind => NobodyHolds(s.accounts, h);
    case ResetKind => NobodyHolds(s.accounts, h);
    case LoginKind => NoSuchToken(s.tokens, h);
  }

  // ---- nothing brings a spent credential back ---------------------------------------------

  /** The row keeps its id, and its single-use hashes but for a new one. */
  predicate ComesFrom(a: Account, b: Account, e: Event) {
    && b.id == a.id
    && (b.verify.hash == a.verify.hash || b.verify.hash.None?
        || (e.Do? && e.op.IssueVerify? && b.verify.hash == Some(e.op.raw)))
    && (b.reset.hash == a.reset.hash || b.reset.hash.None?
        || (e.Do? && e.op.IssueReset? && b.reset.hash == Some(e.op.raw)))
  }

  lemma {:induction false} ChangedRow(accounts: seq<Account>, c: Change, b: Account) returns (a: Account)
    requires b in Changed(accounts, c) && !c.Added?
    ensures a in accounts && (a == b || (c.RowEdited? && a.id == c.id && b == Edited(a, c.edit)))
  {
    match c
    case Unchanged => a := b;
    case Dropped(id) =>
      DropKeeps(accounts, id);
      a := b;
    case RowEdited(id, e) =>
      var next := WithAccount(accounts, id, e);
      var i :| 0 <= i < |next| && next[i] == b;
      a := accounts[i];
  }

  /** Where a row of the next store comes from. */
  lemma AccountsOf(s: Store, e: Event, b: Account) returns (a: Account)
    requires b in After(s, e).accounts && WellFormed(s)
    requires e.Do? ==> !e.op.CreateAccount?
    ensures a in s.accounts && ComesFrom(a, b, e)
  {
    match e
    case Do(op, now) =>
      StepChanges(s, op, now);
      a := ChangedRow(s.accounts, ChangeOf(s, op, now), b);
    case Purge(now) =>
      var next := Cleared(s.accounts, now);
      var i :| 0 <= i < |next| && next[i] == b;
      a := s.accounts[i];
  }

  lemma SpentHashStays(s: Store, e: Event, kind: Kind, h: string)
    requires WellFormed(s) && (e.Do? ==> OpFresh(s, e.op)) && Spent(s, kind, h) && !kind.LoginKind?
    ensures Spent(After(s, e), kind, h)
  {
    AfterKeepsWellFormed(s, e);
    forall b | b in After(s, e).accounts
      ensures kind.VerifyKind? ==> b.verify.hash != Some(h)
      ensures kind.ResetKind? ==> b.reset.hash != Some(h)
    {
      if e.Do? && e.op.CreateAccount? {
        assert b in s.accounts || (b.verify.hash.None? && b.reset.hash.None?);
      } else {
        var a := AccountsOf(s, e, b);
      }
    }
  }

  /** The next store's login tokens are old ones, or the one just issued. */
  lemma TokensOf(s: Store, e: Event, t: LoginToken)
    requires t in After(s, e).tokens
    ensures t in s.tokens || (e.Do? && e.op.IssueLogin? && t.hash == e.op.raw && t.account == e.op.account)
  {
    match e
    case Purge(now) => LiveKeeps(s.tokens, now);
    case Do(op, now) =>
      match op
      case ConfirmReset(raw, _) =>
        var a := AccountByReset(s.accounts, raw);
        if a.Some? {
          CloseKeeps(s.tokens, a.value.id, "");
        }
      case ChangePassword(account, _, keep) => CloseKeeps(s.tokens, account, keep);
      case DeleteAccount(account) => CloseKeeps(s.tokens, account, "");
      case _ =>
  }

  lemma SpentLoginStays(s: Store, e: Event, h: string)
    requires WellFormed(s) && (e.Do? ==> OpFresh(s, e.op)) && Spent(s, LoginKind, h)
    ensures Spent(After(s, e), LoginKind, h)
  {
    AfterKeepsWellFormed(s, e);
    forall t | t in After(s, e).tokens ensures t.hash != h {
      TokensOf(s, e, t);
    }
  }

  lemma SpentStays(s: Store, e: Event, kind: Kind, h: string)
    requires WellFormed(s) && (e.Do? ==> OpFresh(s, e.op)) && Spent(s, kind, h)
    ensures Spent(After(s, e), kind, h)
  {
    if kind.LoginKind? {
      SpentLoginStays(s, e, h);
    } else {
      SpentHashStays(s, e, kind, h);
    }
  }

  /** The answers a run gives to uses of one credential. */
  function AnswersTo(s: Store, events: seq<Event>, kind: Kind, h: string): seq<Answer>
    decreases |events|
  {
    if events == [] then []
    else
      var rest := AnswersTo(After(s, events[0]), events[1..], kind, h);
      if events[0].Do? && Uses(events[0].op, kind, h) then [Step(s, events[0].op, events[0].now).1] + rest else rest
  }

  lemma {:induction false} SpentForever(s: Store, now: int, events: seq<Event>, kind: Kind, h: string)
    requires WellFormed(s) && Orderly(s, now, events) && Spent(s, kind, h)
    ensures forall r :: r in AnswersTo(s, events, kind, h) ==> r == Nothing
    decreases |events|
  {
    if events != [] {
      var e := events[0];
      SpentStays(s, e, kind, h);
      AfterKeepsWellFormed(s, e);
      SpentForever(After(s, e), e.now, events[1..], kind, h);
      if e.Do? && Uses(e.op, kind, h) {
        SpentIsRefused(s, e.op, e.now, kind, h);
      }
    }
  }

  // ---- single-use tokens --------------------------------------------------------------------

  lemma {:induction false} VerifyFound(accounts: seq<Account>, h: string)
    ensures AccountByVerify(accounts, h).Some?
            ==> AccountByVerify(accounts, h).value in accounts
                && AccountByVerify(accounts, h).value.verify.hash == Some(h)
  {
    if accounts != [] {
      VerifyFound(accounts[1..], h);
    }
  }

  lemma {:induction false} ResetFound(accounts: seq<Account>, h: string)
    ensures AccountByReset(accounts, h).Some?
            ==> AccountByReset(accounts, h).value in accounts && AccountByReset(accounts, h).value.reset.hash == Some(h)
  {
    if accounts != [] {
      ResetFound(accounts[1..], h);
    }
  }

  lemma VerifySpent(s: Store, h: string, now: int)
    requires WellFormed(s) && Step(s, ConfirmVerify(h), now).1.Confirmed?
    ensures Spent(Step(s, ConfirmVerify(h), now).0, VerifyKind, h)
  {
    var next := Step(s, ConfirmVerify(h), now).0;
    VerifyFound(s.accounts, h);
    forall b | b in next.accounts ensures b.verify.hash != Some(h) {
      var i :| 0 <= i < |next.accounts| && next.accounts[i] == b;
      if s.accounts[i].verify.hash == Some(h) {
        VerifyHeld(s.accounts, s.accounts[i]);
      }
    }
  }

  lemma ResetSpent(s: Store, h: string, password: string, now: int)
    requires WellFormed(s) && Step(s, ConfirmReset(h, password), now).1.Confirmed?
    ensures Spent(Step(s, ConfirmReset(h, password), now).0, ResetKind, h)
  {
    var next := Step(s, ConfirmReset(h, password), now).0;
    ResetFound(s.accounts, h);
    forall b | b in next.accounts ensures b.reset.hash != Some(h) {
      var i :| 0 <= i < |next.accounts| && next.accounts[i] == b;
      if s.accounts[i].reset.hash == Some(h) {
        ResetHeld(s.accounts, s.accounts[i]);
      }
    }
  }

  /** A confirmed verification token is never accepted again. */
  lemma {:induction false} VerifyTokenWorksOnce(s: Store, h: string, now: int, later: seq<Event>)
    requires WellFormed(s) && Step(s, ConfirmVerify(h), now).1.Confirmed?
    requires Orderly(Step(s, ConfirmVerify(h), now).0, now, later)
    ensures forall r :: r in AnswersTo(Step(s, ConfirmVerify(h), now).0, later, VerifyKind, h) ==> r == Nothing
  {
    VerifySpent(s, h, now);
    StepKeepsWellFormed(s, ConfirmVerify(h), now);
    SpentForever(Step(s, ConfirmVerify(h), now).0, now, later, VerifyKind, h);
  }

  /** A confirmed reset token is never accepted again, whatever new password comes with it. */
  lemma {:induction false} ResetTokenWorksOnce(s: Store, h: string, password: string, now: int, later: seq<Event>)
    requires WellFormed(s) && Step(s, ConfirmReset(h, password), now).1.Confirmed?
    requires Orderly(Step(s, ConfirmReset(h, password), now).0, now, later)
    ensures forall r :: r in AnswersTo(Step(s, ConfirmReset(h, password), now).0, later, ResetKind, h) ==> r == Nothing
  {
    ResetSpent(s, h, password, now);
    StepKeepsWellFormed(s, ConfirmReset(h, password), now);
    SpentForever(Step(s, ConfirmReset(h, password), now).0, now, later, ResetKind, h);
  }

  // ---- sessions -------------------------------------------------------------------------------

  lemma {:induction false} ClosedIsSpent(s: Store, t: LoginToken, keep: string, closed: Store)
    requires WellFormed(s) && t in s.tokens && Closing(t, t.account, keep)
    requires closed.tokens == CloseSessions(s.tokens, t.account, keep) && closed.minted == s.minted
    ensures Spent(closed, LoginKind, t.hash)
  {
    CloseKeeps(s.tokens, t.account, keep);
    forall u | u in closed.tokens ensures u.hash != t.hash {
      TokenHeld(s.tokens, u);
      TokenHeld(s.tokens, t);
    }
  }

  /** After a reset no earlier session of that account ever resolves again. */
  lemma {:induction false} ResetEndsSessions(s: Store, h: string, password: string, now: int, t: LoginToken,
                                             later: seq<Event>)
    requires WellFormed(s) && t in s.tokens && Step(s, ConfirmReset(h, password), now).1 == Confirmed(t.account)
    requires Orderly(Step(s, ConfirmReset(h, password), now).0, now, later)
    ensures forall r :: r in AnswersTo(Step(s, ConfirmReset(h, password), now).0, later, LoginKind, t.hash)
                ==> r == Nothing
  {
    var next := Step(s, ConfirmReset(h, password), now).0;
    ClosedIsSpent(s, t, "", next);
    StepKeepsWellFormed(s, ConfirmReset(h, password), now);
    SpentForever(next, now, later, LoginKind, t.hash);
  }

  /** After a password change every other session of that account is dead for good. */
  lemma {:induction false} PasswordChangeEndsOthers(s: Store, account: string, password: string, keep: string,
                                                    now: int, t: LoginToken, later: seq<Event>)
    requires WellFormed(s) && t in s.tokens && t.account == account && t.hash != keep
    requires Step(s, ChangePassword(account, password, keep), now).1 == Done(true)
    requires Orderly(Step(s, ChangePassword(account, password, keep), now).0, now, later)
    ensures var next := Step(s, ChangePassword(account, password, keep), now).0;
            forall r :: r in AnswersTo(next, later, LoginKind, t.hash) ==> r == Nothing
  {
    var op := ChangePassword(account, password, keep);
    ClosedIsSpent(s, t, keep, Step(s, op, now).0);
    StepKeepsWellFormed(s, op, now);
    SpentForever(Step(s, op, now).0, now, later, LoginKind, t.hash);
  }

  lemma {:induction false} SameOwner(accounts: seq<Account>, id: string, account: string, password: string)
    ensures Resolve(WithAccount(accounts, account, SetPassword(password)), id) == Resolve(accounts, id)
  {
    if accounts != [] {
      var e := SetPassword(password);
      assert WithAccount(accounts, account, e)[1..] == WithAccount(accounts[1..], account, e);
      SameOwner(accounts[1..], id, account, password);
    }
  }

  lemma {:induction false} KeptIsFound(tokens: seq<LoginToken>, account: string, keep: string, h: string)
    requires DistinctTokens(tokens)
    requires forall t :: t in tokens && t.hash == h ==> !Closing(t, account, keep)
    ensures TokenAt(CloseSessions(tokens, account, keep), h) == TokenAt(tokens, h)
  {
    if tokens != [] {
      assert tokens[0] in tokens && forall t :: t in tokens[1..] ==> t in tokens;
      KeptIsFound(tokens[1..], account, keep, h);
    }
  }

  /** A password change leaves the kept session, and other accounts' sessions, answering
      as before. */
  lemma PasswordChangeKeeps(s: Store, account: string, password: string, keep: string, now: int, h: string, at: int)
    requires WellFormed(s)
    requires forall t :: t in s.tokens && t.hash == h ==> t.hash == keep != "" || t.account != account
    ensures Step(Step(s, ChangePassword(account, password, keep), now).0, LookupLogin(h), at).1
            == Step(s, LookupLogin(h), at).1
  {
    KeptIsFound(s.tokens, account, keep, h);
    var t := TokenAt(s.tokens, h);
    if t.Some? {
      SameOwner(s.accounts, t.value.account, account, password);
    }
  }

  // ---- deletion --------------------------------------------------------------------------------

  /** An id once minted that no account has. */
  predicate Gone(s: Store, id: string) {
    id in s.ids && forall a :: a in s.accounts ==> a.id != id
  }

  predicate Names(r: Answer, id: string) {
    (r.Resolved? && r.id == id) || r == Confirmed(id)
  }

  lemma {:induction false} AccountFound(accounts: seq<Account>, key: string)
    ensures var a := AccountAt(accounts, key); a.Some? ==> a.value in accounts
    ensures var b := AccountByEmail(accounts, key); b.Some? ==> b.value in accounts
  {
    if accounts != [] {
      AccountFound(accounts[1..], key);
    }
  }

  lemma GoneIsNeverNamed(s: Store, op: Op, now: int, id: string)
    requires WellFormed(s) && OpFresh(s, op) && Gone(s, id)
    ensures !Names(Step(s, op, now).1, id)
  {
    match op
    case Authenticate(email, _) => AccountFound(s.accounts, Text.Norm(email));
    case LookupLogin(raw) =>
      var t := TokenAt(s.tokens, raw);
      if t.Some? {
        AccountFound(s.accounts, t.value.account);
      }
    case LookupKey(raw) =>
      var k := KeyAt(s.keys, raw);
      if k.Some? {
        AccountFound(s.accounts, k.value.account);
      }
    case ConfirmVerify(raw) => VerifyFound(s.accounts, raw);
    case ConfirmReset(raw, _) => ResetFound(s.accounts, raw);
    case _ =>
  }

  lemma GoneStays(s: Store, e: Event, id: string)
    requires WellFormed(s) && (e.Do? ==> OpFresh(s, e.op)) && Gone(s, id)
    ensures Gone(After(s, e), id)
  {
    AfterKeepsWellFormed(s, e);
    forall b | b in After(s, e).accounts ensures b.id != id {
      if e.Do? && e.op.CreateAccount? {
        assert b in s.accounts || b.id == e.op.id;
      } else {
        var a := AccountsOf(s, e, b);
      }
    }
  }

  lemma {:induction false} GoneForever(s: Store, now: int, events: seq<Event>, id: string)
    requires WellFormed(s) && Orderly(s, now, events) && Gone(s, id)
    ensures forall r :: r in Answers(s, events) ==> !Names(r, id)
    decreases |events|
  {
    if events != [] {
      var e := events[0];
      GoneStays(s, e, id);
      AfterKeepsWellFormed(s, e);
      GoneForever(After(s, e), e.now, events[1..], id);
      if e.Do? {
        GoneIsNeverNamed(s, e.op, e.now, id);
      }
    }
  }

  /** Once an account is deleted no password, session, key or single-use token ever
      resolves to it, not even one issued for its id afterwards. */
  lemma {:induction false} DeletedIsNeverResolved(s: Store, account: string, now: int, later: seq<Event>)
    requires WellFormed(s) && account in s.ids && account != ""
    requires Orderly(Step(s, DeleteAccount(account), now).0, now, later)
    ensures forall r :: r in Answers(Step(s, DeleteAccount(account), now).0, later) ==> !Names(r, account)
  {
    DropGood(s.accounts, account, s.minted, s.ids);
    StepKeepsWellFormed(s, DeleteAccount(account), now);
    GoneForever(Step(s, DeleteAccount(account), now).0, now, later, account);
  }
}
