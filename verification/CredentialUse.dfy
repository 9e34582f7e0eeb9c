/** What credentials are good for, and for how long exactly
    (backend/app/core/accounts_store.py:354-396, 493-606, 609-726). */
module CredentialUse {
  import opened Common
  import opened CredentialLifetimes
  import opened CredentialPurge
  import opened CredentialRules
  import opened CredentialRuns
  import opened CredentialStore
  import opened Text

  // ---- a session, over a whole run ---------------------------------------------------------

  /** Whether an event ends this session: a reset or password change of its account that
      does not keep it, or the account's deletion. */
  predicate Closes(s: Store, e: Event, t: LoginToken) {
    && e.Do?
    && match e.op
       case ConfirmReset(_, _) => Step(s, e.op, e.now).1 == Confirmed(t.account)
       case ChangePassword(account, _, keep) =>
         account == t.account && Step(s, e.op, e.now).1 == Done(true) && t.hash != keep
       case DeleteAccount(account) => account == t.account != ""
       case _ => false
  }

  predicate ClosedIn(s: Store, events: seq<Event>, t: LoginToken)
    decreases |events|
  {
    events != [] && (Closes(s, events[0], t) || ClosedIn(After(s, events[0]), events[1..], t))
  }

  lemma StaysUnlessClosed(s: Store, e: Event, t: LoginToken)
    requires WellFormed(s) && t in s.tokens
    ensures t in After(s, e).tokens
            <==> !Closes(s, e, t) && !(e.Purge? && IsExpired(t.expires, e.now))
  {
    match e
    case Purge(now) => LiveKeeps(s.tokens, now);
    case Do(op, now) =>
      match op
      case ConfirmReset(raw, _) =>
        var a := AccountByReset(s.accounts, raw);
        if a.Some? {
          CloseKeeps(s.tokens, a.value.id, "");
        }
      case ChangePassword(account, _, keep) =>
        CloseKeeps(s.tokens, account, keep);
        TokenIsNamed(s, t);
      case DeleteAccount(account) => CloseKeeps(s.tokens, account, "");
      case _ =>
  }

  lemma TokenIsNamed(s: Store, t: LoginToken)
    requires WellFormed(s) && t in s.tokens
    ensures t.hash != "" && t.hash in s.minted
  {
  }

  /** Once out of the table, a session's token is never put back. */
  lemma {:induction false} GoneTokenStays(s: Store, now: int, events: seq<Event>, t: LoginToken)
    requires WellFormed(s) && Orderly(s, now, events) && Spent(s, LoginKind, t.hash)
    ensures Spent(Final(s, events), LoginKind, t.hash)
    decreases |events|
  {
    if events != [] {
      SpentLoginStays(s, events[0], t.hash);
      AfterKeepsWellFormed(s, events[0]);
      GoneTokenStays(After(s, events[0]), events[0].now, events[1..], t);
    }
  }

  lemma RemovedIsSpent(s: Store, e: Event, t: LoginToken)
    requires WellFormed(s) && (e.Do? ==> OpFresh(s, e.op)) && t in s.tokens && t !in After(s, e).tokens
    ensures Spent(After(s, e), LoginKind, t.hash)
  {
    AfterKeepsWellFormed(s, e);
    TokenIsNamed(s, t);
    forall u | u in After(s, e).tokens ensures u.hash != t.hash {
      TokensOf(s, e, u);
      if u in s.tokens {
        TokenHeld(s.tokens, u);
        TokenHeld(s.tokens, t);
      }
    }
  }

  function EndOf(now: int, events: seq<Event>): int { if events == [] then now else events[|events| - 1].now }

  /** After any run a session is still stored, unless it was closed or purged as expired. */
  lemma {:induction false} SessionStored(s: Store, now: int, events: seq<Event>, t: LoginToken)
    requires WellFormed(s) && Orderly(s, now, events) && t in s.tokens && t.expires.Aware?
    ensures t in Final(s, events).tokens || Spent(Final(s, events), LoginKind, t.hash)
    ensures ClosedIn(s, events, t) ==> Spent(Final(s, events), LoginKind, t.hash)
    ensures !ClosedIn(s, events, t) && EndOf(now, events) < t.expires.at ==> t in Final(s, events).tokens
    ensures now <= EndOf(now, events)
    decreases |events|
  {
    if events != [] {
      var e := events[0];
      var next := After(s, e);
      StaysUnlessClosed(s, e, t);
      AfterKeepsWellFormed(s, e);
      if t in next.tokens {
        SessionStored(next, e.now, events[1..], t);
      } else {
        RemovedIsSpent(s, e, t);
        GoneTokenStays(next, e.now, events[1..], t);
        OrderlyEnds(next, e.now, events[1..]);
      }
    }
  }

  lemma {:induction false} OrderlyEnds(s: Store, now: int, events: seq<Event>)
    requires Orderly(s, now, events)
    ensures now <= EndOf(now, events)
    decreases |events|
  {
    if events != [] {
      OrderlyEnds(After(s, events[0]), events[0].now, events[1..]);
    }
  }

  /** A session issued at some time answers, after any later run, with the account it was
      issued for, exactly until seven days are over or an event of the run closed it. */
  lemma {:induction false} SessionLifetimeExactly(s: Store, account: string, raw: string, issued: int,
                                                  later: seq<Event>, at: int)
    requires WellFormed(s) && OpFresh(s, IssueLogin(account, raw))
    requires Orderly(Step(s, IssueLogin(account, raw), issued).0, issued, later) && EndOf(issued, later) <= at
    ensures var start := Step(s, IssueLogin(account, raw), issued).0;
            var end := Final(start, later);
            Step(end, LookupLogin(raw), at).1
            == if at < issued + 7 * 86400
                  && !ClosedIn(start, later, LoginToken(account, raw, Aware(issued + 7 * 86400)))
               then Resolve(end.accounts, account) else Nothing
  {
    var start := Step(s, IssueLogin(account, raw), issued).0;
    var t := LoginToken(account, raw, Aware(issued + LOGIN_TTL));
    NoSuchToken(s.tokens, raw);
    assert start.tokens == s.tokens + [t];
    StepKeepsWellFormed(s, IssueLogin(account, raw), issued);
    SessionStored(start, issued, later, t);
    RunKeepsWellFormed(start, issued, later);
    var end := Final(start, later);
    if t in end.tokens {
      TokenHeld(end.tokens, t);
    } else {
      NoSuchToken(end.tokens, raw);
    }
  }

  // ---- single-use tokens ----------------------------------------------------------------------

  lemma {:induction false} RowUpdated(accounts: seq<Account>, id: string, e: Edit)
    requires DistinctIds(accounts)
    ensures var a := AccountAt(accounts, id);
            AccountAt(WithAccount(accounts, id, e), id) == if a.None? then None else Some(Edited(a.value, e))
    ensures forall other :: other != id ==> AccountAt(WithAccount(accounts, id, e), other) == AccountAt(accounts, other)
  {
    if accounts != [] {
      assert WithAccount(accounts, id, e)[1..] == WithAccount(accounts[1..], id, e);
      RowUpdated(accounts[1..], id, e);
    }
  }

  lemma {:induction false} RowFound(accounts: seq<Account>, id: string)
    ensures var a := AccountAt(accounts, id); a.Some? ==> a.value in accounts && a.value.id == id
    ensures AccountAt(accounts, id).None? ==> forall a :: a in accounts ==> a.id != id
  {
    if accounts != [] {
      RowFound(accounts[1..], id);
      assert forall a :: a in accounts <==> a == accounts[0] || a in accounts[1..];
    }
  }

  lemma {:induction false} RowHeld(accounts: seq<Account>, a: Account)
    requires DistinctIds(accounts) && a in accounts
    ensures AccountAt(accounts, a.id) == Some(a)
  {
    if accounts[0] != a {
      RowHeld(accounts[1..], a);
    }
  }

  // ---- emails stay distinct ---------------------------------------------------------------------

  predicate DistinctEmails(accounts: seq<Account>) {
    forall i, j :: 0 <= i < j < |accounts| ==> accounts[i].email != accounts[j].email
  }

  lemma {:induction false} EmailHeld(accounts: seq<Account>, a: Account)
    requires DistinctEmails(accounts) && a in accounts
    ensures AccountByEmail(accounts, a.email) == Some(a)
  {
    if accounts[0] != a {
      EmailHeld(accounts[1..], a);
    }
  }

  lemma EmailsStayDistinct(accounts: seq<Account>, id: string, e: Edit)
    requires DistinctEmails(accounts)
    ensures DistinctEmails(WithAccount(accounts, id, e))
  {
  }

  lemma {:induction false} NoSuchEmail(accounts: seq<Account>, email: string)
    requires AccountByEmail(accounts, email).None?
    ensures forall i :: 0 <= i < |accounts| ==> accounts[i].email != email
  {
    if accounts != [] {
      NoSuchEmail(accounts[1..], email);
      assert forall i :: 0 < i < |accounts| ==> accounts[i] == accounts[1..][i - 1];
    }
  }

  lemma ConsEmails(a: Account, rest: seq<Account>)
    requires DistinctEmails(rest) && forall b :: b in rest ==> b.email != a.email
    ensures DistinctEmails([a] + rest)
  {
  }

  lemma {:induction false} DropEmails(accounts: seq<Account>, id: string)
    requires DistinctEmails(accounts)
    ensures DistinctEmails(DropAccount(accounts, id))
  {
    if accounts != [] {
      DropEmails(accounts[1..], id);
      DropKeeps(accounts[1..], id);
      ConsEmails(accounts[0], DropAccount(accounts[1..], id));
    }
  }

  lemma {:induction false} NewEmail(accounts: seq<Account>, a: Account)
    requires DistinctEmails(accounts) && AccountByEmail(accounts, a.email).None?
    ensures DistinctEmails(accounts + [a])
  {
    NoSuchEmail(accounts, a.email);
  }

  lemma ClearedEmails(accounts: seq<Account>, now: int)
    requires DistinctEmails(accounts)
    ensures DistinctEmails(Cleared(accounts, now))
  {
  }

  lemma {:induction false} ChangeKeepsEmails(accounts: seq<Account>, c: Change)
    requires DistinctEmails(accounts) && (c.Added? ==> AccountByEmail(accounts, c.account.email).None?)
    ensures DistinctEmails(Changed(accounts, c))
  {
    match c
    case Unchanged =>
    case Added(a) => NewEmail(accounts, a);
    case Dropped(id) => DropEmails(accounts, id);
    case RowEdited(id, e) => EmailsStayDistinct(accounts, id, e);
  }

  /** No event gives two accounts one email: an account is only created under an email that
      nobody has, and no row's email ever changes. */
  lemma AfterKeepsEmails(s: Store, e: Event)
    requires DistinctEmails(s.accounts)
    ensures DistinctEmails(After(s, e).accounts)
  {
    match e
    case Do(op, now) =>
      StepChanges(s, op, now);
      ChangeKeepsEmails(s.accounts, ChangeOf(s, op, now));
    case Purge(now) => ClearedEmails(s.accounts, now);
  }

  lemma {:induction false} RunKeepsEmails(s: Store, events: seq<Event>)
    requires DistinctEmails(s.accounts)
    ensures DistinctEmails(Final(s, events).accounts)
    decreases |events|
  {
    if events != [] {
      AfterKeepsEmails(s, events[0]);
      RunKeepsEmails(After(s, events[0]), events[1..]);
    }
  }

  // ---- passwords -------------------------------------------------------------------------------

  /** Once an account's row has a new password, exactly that one signs it in. */
  lemma {:induction false} NewPasswordSignsIn(s: Store, next: Store, id: string, password: string, tried: string,
                                              email: string, at: int)
    requires DistinctIds(s.accounts) && DistinctEmails(s.accounts) && AccountAt(s.accounts, id).Some?
    requires Norm(email) == AccountAt(s.accounts, id).value.email
    requires next.accounts == WithAccount(s.accounts, id, SetPassword(password))
    ensures Step(next, Authenticate(email, tried), at).1
            == if tried == password then Resolve(s.accounts, id) else Nothing
  {
    RowUpdated(s.accounts, id, SetPassword(password));
    EmailsStayDistinct(s.accounts, id, SetPassword(password));
    RowFound(next.accounts, id);
    EmailHeld(next.accounts, AccountAt(next.accounts, id).value);
    SameOwner(s.accounts, id, id, password);
  }

  /** A row's new password is nobody else's. */
  lemma {:induction false} OthersSignInAsBefore(accounts: seq<Account>, id: string, password: string, email: string)
    requires forall a :: a in accounts && a.id == id ==> a.email != email
    ensures AccountByEmail(WithAccount(accounts, id, SetPassword(password)), email) == AccountByEmail(accounts, email)
  {
    if accounts != [] {
      var e := SetPassword(password);
      assert accounts[0] in accounts && forall a :: a in accounts[1..] ==> a in accounts;
      assert WithAccount(accounts, id, e)[1..] == WithAccount(accounts[1..], id, e);
      OthersSignInAsBefore(accounts[1..], id, password, email);
    }
  }

  /** A password change is made exactly for an id that an account has and a password that is
      not empty; then exactly the new password signs that account in, and every other sign-in,
      and each one after a refused change, is as it was. */
  lemma {:induction false} NewPasswordExactly(s: Store, id: string, password: string, keep: string, tried: string,
                                              email: string, now: int, at: int)
    requires WellFormed(s) && DistinctEmails(s.accounts)
    ensures var (next, r) := Step(s, ChangePassword(id, password, keep), now);
            var owner := AccountAt(s.accounts, id);
            && r == Done(id != "" && password != "" && owner.Some?)
            && Step(next, Authenticate(email, tried), at).1
               == if r == Done(true) && owner.value.email == Norm(email)
                  then (if tried == password then Resolve(s.accounts, id) else Nothing)
                  else Step(s, Authenticate(email, tried), at).1
  {
    var next, owner := Step(s, ChangePassword(id, password, keep), now).0, AccountAt(s.accounts, id);
    if id != "" && password != "" && owner.Some? {
      if owner.value.email == Norm(email) {
        NewPasswordSignsIn(s, next, id, password, tried, email, at);
      } else {
        forall a | a in s.accounts && a.id == id ensures a.email != Norm(email) {
          RowHeld(s.accounts, a);
        }
        OthersSignInAsBefore(s.accounts, id, password, Norm(email));
      }
    }
  }

  /** What offering a reset for a known address makes of its account's row. */
  lemma {:induction false} ResetOffered(s: Store, email: string, raw: string, issued: int)
    requires WellFormed(s) && DistinctEmails(s.accounts) && OpFresh(s, IssueReset(email, raw))
    requires AccountByEmail(s.accounts, Norm(email)).Some?
    ensures var owner := AccountByEmail(s.accounts, Norm(email)).value;
            var offered := Step(s, IssueReset(email, raw), issued).0;
            var row := Edited(owner, OfferReset(raw, issued + RESET_TTL));
            && owner.email == Norm(email)
            && DistinctIds(offered.accounts) && DistinctEmails(offered.accounts)
            && AccountAt(offered.accounts, owner.id) == Some(row)
            && AccountByReset(offered.accounts, raw) == Some(row)
  {
    var owner := AccountByEmail(s.accounts, Norm(email)).value;
    var e := OfferReset(raw, issued + RESET_TTL);
    var offered := Step(s, IssueReset(email, raw), issued).0;
    EmailFound(s.accounts, Norm(email));
    RowHeld(s.accounts, owner);
    StepKeepsWellFormed(s, IssueReset(email, raw), issued);
    RowUpdated(s.accounts, owner.id, e);
    EmailsStayDistinct(s.accounts, owner.id, e);
    RowFound(offered.accounts, owner.id);
    ResetHeld(offered.accounts, Edited(owner, e));
  }

  lemma {:induction false} EmailFound(accounts: seq<Account>, email: string)
    ensures var a := AccountByEmail(accounts, email); a.Some? ==> a.value in accounts && a.value.email == email
  {
    if accounts != [] {
      EmailFound(accounts[1..], email);
    }
  }

  // ---- API keys ----------------------------------------------------------------------------------

  predicate KeyWorks(s: Store, raw: string) {
    exists k :: k in s.keys && k.hash == raw && !k.revoked
  }

  /** An event that ends this key: its revocation, or its account's deletion. */
  predicate EndsKey(e: Event, k: ApiKey) {
    e.Do? && (e.op == RevokeKey(k.account, k.id) || (e.op == DeleteAccount(k.account) && k.account != ""))
  }

  predicate EndedIn(events: seq<Event>, k: ApiKey) {
    exists i :: 0 <= i < |events| && EndsKey(events[i], k)
  }

  /** The row is there, and no other has its hash. */
  predicate OnlyKey(keys: seq<ApiKey>, k: ApiKey) {
    k in keys && forall j :: j in keys && j.hash == k.hash ==> j == k
  }

  lemma {:induction false} KeptKeys(keys: seq<ApiKey>, account: string)
    ensures forall k :: k in DropKeys(keys, account) <==> k in keys && k.account != account
  {
    if keys != [] {
      KeptKeys(keys[1..], account);
      assert forall k :: k in keys <==> k == keys[0] || k in keys[1..];
    }
  }

  /** Resets, password changes and everything else leave a key's row alone, until it is
      revoked or its account deleted. */
  lemma KeyStays(s: Store, e: Event, k: ApiKey)
    requires k in s.keys && !k.revoked && !EndsKey(e, k)
    ensures k in After(s, e).keys
  {
    if e.Do? && e.op.DeleteAccount? {
      KeptKeys(s.keys, e.op.account);
    } else if e.Do? && e.op.RevokeKey? {
      var i :| 0 <= i < |s.keys| && s.keys[i] == k;
      assert After(s, e).keys[i] == k;
    }
  }

  /** Where a key of the next store comes from. */
  lemma KeysOf(s: Store, e: Event, j: ApiKey)
    requires j in After(s, e).keys
    ensures j in s.keys || (e.Do? && e.op.IssueKey? && j.hash == e.op.raw)
            || (e.Do? && e.op == RevokeKey(j.account, j.id) && j.revoked && j.(revoked := false) in s.keys)
  {
    if e.Do? && e.op.DeleteAccount? {
      KeptKeys(s.keys, e.op.account);
    } else if e.Do? && e.op.RevokeKey? {
      var next := After(s, e).keys;
      var i :| 0 <= i < |next| && next[i] == j;
      assert s.keys[i] in s.keys;
    }
  }

  lemma KeyStep(s: Store, e: Event, k: ApiKey)
    requires WellFormed(s) && (e.Do? ==> OpFresh(s, e.op)) && OnlyKey(s.keys, k) && !k.revoked
    ensures !EndsKey(e, k) ==> OnlyKey(After(s, e).keys, k)
    ensures EndsKey(e, k) ==> !KeyWorks(After(s, e), k.hash)
  {
    assert k.hash in s.minted;
    if EndsKey(e, k) {
      forall j | j in After(s, e).keys && j.hash == k.hash ensures j.revoked {
        EndedKey(s, e, k, j);
      }
    } else {
      KeyStays(s, e, k);
      forall j | j in After(s, e).keys && j.hash == k.hash ensures j == k {
        KeysOf(s, e, j);
      }
    }
  }

  lemma EndedKey(s: Store, e: Event, k: ApiKey, j: ApiKey)
    requires OnlyKey(s.keys, k) && !k.revoked && EndsKey(e, k)
    requires j in After(s, e).keys && j.hash == k.hash
    ensures j.revoked
  {
    if e.op.DeleteAccount? {
      KeptKeys(s.keys, e.op.account);
    } else {
      var next := After(s, e).keys;
      var i :| 0 <= i < |next| && next[i] == j;
      assert s.keys[i] in s.keys;
    }
  }

  /** After any run a key is there and works, unless one of the events ended it. */
  lemma {:induction false} KeyStored(s: Store, now: int, events: seq<Event>, k: ApiKey, at: int)
    requires WellFormed(s) && Orderly(s, now, events) && OnlyKey(s.keys, k) && !k.revoked
    ensures !EndedIn(events, k) ==> OnlyKey(Final(s, events).keys, k)
    ensures EndedIn(events, k) ==> Step(Final(s, events), LookupKey(k.hash), at).1 == Nothing
    decreases |events|
  {
    if events != [] {
      var e, later := events[0], events[1..];
      KeyStep(s, e, k);
      AfterKeepsWellFormed(s, e);
      EndedFirstOrLater(events, k);
      if EndsKey(e, k) {
        assert k.hash in s.minted;
        RevokedForever(After(s, e), e.now, later, k.hash, at);
      } else {
        KeyStored(After(s, e), e.now, later, k, at);
      }
    }
  }

  lemma EndedFirstOrLater(events: seq<Event>, k: ApiKey)
    requires events != []
    ensures EndedIn(events, k) <==> EndsKey(events[0], k) || EndedIn(events[1..], k)
  {
    var later := events[1..];
    if EndedIn(events, k) && !EndsKey(events[0], k) {
      var i :| 0 <= i < |events| && EndsKey(events[i], k);
      assert later[i - 1] == events[i];
    }
    if EndedIn(later, k) {
      var i :| 0 <= i < |later| && EndsKey(later[i], k);
      assert events[i + 1] == later[i];
    }
  }

  /** An API key answers, after any later run, with the account it was issued for, exactly
      until it is revoked or that account deleted: no reset, no password change and no
      length of time ends it. */
  lemma {:induction false} KeyLifetimeExactly(s: Store, account: string, keyId: string, raw: string, issued: int,
                                              later: seq<Event>, at: int)
    requires WellFormed(s) && OpFresh(s, IssueKey(account, keyId, raw))
    requires Orderly(Step(s, IssueKey(account, keyId, raw), issued).0, issued, later)
    ensures var start := Step(s, IssueKey(account, keyId, raw), issued).0;
            var end := Final(start, later);
            Step(end, LookupKey(raw), at).1
            == if EndedIn(later, ApiKey(keyId, account, raw, false)) then Nothing else Resolve(end.accounts, account)
  {
    var start := Step(s, IssueKey(account, keyId, raw), issued).0;
    var k := ApiKey(keyId, account, raw, false);
    KeyFound(s.keys, raw);
    assert start.keys == s.keys + [k];
    StepKeepsWellFormed(s, IssueKey(account, keyId, raw), issued);
    KeyStored(start, issued, later, k, at);
    if !EndedIn(later, k) {
      KeyHeld(Final(start, later).keys, k);
    }
  }

  lemma {:induction false} KeyHeld(keys: seq<ApiKey>, k: ApiKey)
    requires OnlyKey(keys, k)
    ensures KeyAt(keys, k.hash) == Some(k)
  {
    if keys[0] != k {
      assert keys[0] in keys && k in keys[1..];
      KeyHeld(keys[1..], k);
    }
  }

  /** A key that does not work when it was minted before never works again. */
  lemma DeadKeyStays(s: Store, e: Event, raw: string)
    requires WellFormed(s) && (e.Do? ==> OpFresh(s, e.op)) && raw in s.minted && !KeyWorks(s, raw)
    ensures !KeyWorks(After(s, e), raw)
  {
    var next := After(s, e).keys;
    forall k | k in next && k.hash == raw ensures k.revoked {
      if e.Do? && e.op.DeleteAccount? {
        KeptKeys(s.keys, e.op.account);
      } else if e.Do? && e.op.RevokeKey? {
        var i :| 0 <= i < |next| && next[i] == k;
        assert s.keys[i] in s.keys;
      } else {
        assert k in s.keys;
      }
    }
  }

  lemma {:induction false} KeyFound(keys: seq<ApiKey>, raw: string)
    ensures var k := KeyAt(keys, raw); k.Some? ==> k.value in keys && k.value.hash == raw
  {
    if keys != [] {
      KeyFound(keys[1..], raw);
    }
  }

  /** After revoking a key no lookup of it ever resolves, over every later run. */
  lemma {:induction false} RevokedForever(s: Store, now: int, events: seq<Event>, raw: string, at: int)
    requires WellFormed(s) && Orderly(s, now, events) && raw in s.minted && !KeyWorks(s, raw)
    ensures Step(Final(s, events), LookupKey(raw), at).1 == Nothing
    decreases |events|
  {
    if events == [] {
      KeyFound(s.keys, raw);
    } else {
      DeadKeyStays(s, events[0], raw);
      AfterKeepsWellFormed(s, events[0]);
      RevokedForever(After(s, events[0]), events[0].now, events[1..], raw, at);
    }
  }

  /** A key whose hash no other row holds is dead for good once it is revoked. */
  lemma {:induction false} RevokedKeyIsDead(s: Store, k: ApiKey, now: int, later: seq<Event>, at: int)
    requires WellFormed(s) && k in s.keys && forall j :: j in s.keys && j.hash == k.hash ==> j == k
    requires Orderly(Step(s, RevokeKey(k.account, k.id), now).0, now, later)
    ensures Step(Final(Step(s, RevokeKey(k.account, k.id), now).0, later), LookupKey(k.hash), at).1 == Nothing
  {
    var op := RevokeKey(k.account, k.id);
    var next := Step(s, op, now).0;
    StepKeepsWellFormed(s, op, now);
    forall j | j in next.keys && j.hash == k.hash ensures j.revoked {
      var i :| 0 <= i < |next.keys| && next.keys[i] == j;
      assert s.keys[i] in s.keys;
    }
    RevokedForever(next, now, later, k.hash, at);
  }
}
