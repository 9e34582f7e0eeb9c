/** What every credential operation answers and does, told by the rows that are there
    (backend/app/core/accounts_store.py:354-726, 974-1070). */
module CredentialAnswers {
  import opened Common
  import opened CredentialLifetimes
  import opened CredentialRules
  import opened CredentialRuns
  import opened CredentialStore
  import opened CredentialUse
  import opened Text

  // ---- rows that are there -----------------------------------------------------------------------

  predicate HasId(accounts: seq<Account>, id: string) { exists a :: a in accounts && a.id == id }

  predicate HasEmail(accounts: seq<Account>, email: string) { exists a :: a in accounts && a.email == email }

  lemma {:induction false} IdIsThere(accounts: seq<Account>, id: string)
    ensures AccountAt(accounts, id).Some? <==> HasId(accounts, id)
  {
    RowFound(accounts, id);
  }

  lemma {:induction false} EmailIsThere(accounts: seq<Account>, email: string)
    ensures AccountByEmail(accounts, email).Some? <==> HasEmail(accounts, email)
  {
    EmailFound(accounts, email);
    if AccountByEmail(accounts, email).None? {
      NoSuchEmail(accounts, email);
    }
  }

  /** The other accounts stay as they are, and this one's row becomes another. */
  ghost predicate RowsAsBut(before: seq<Account>, next: seq<Account>, id: string, row: Account -> Account) {
    && |next| == |before|
    && forall i :: 0 <= i < |before| ==> next[i] == if before[i].id == id then row(before[i]) else before[i]
  }

  predicate SameRows(s: Store, next: Store) {
    next.accounts == s.accounts && next.tokens == s.tokens && next.keys == s.keys
  }

  // ---- accounts and passwords -----------------------------------------------------------------------

  /** An account is refused exactly when its id or its address, spaces and letter case aside, is
      taken; otherwise it is added with no token and not verified. */
  lemma CreatedExactly(s: Store, id: string, email: string, password: string, now: int)
    ensures var (next, r) := Step(s, CreateAccount(id, email, password), now);
            && (r == Refused <==> HasId(s.accounts, id) || HasEmail(s.accounts, Norm(email)))
            && (r == Refused ==> next == s)
            && (r != Refused ==>
                  && r == Resolved(id, Norm(email), false)
                  && next.accounts == s.accounts + [Account(id, Norm(email), password, false, Pending(None, Unreadable),
                                                            Pending(None, Unreadable))]
                  && next.tokens == s.tokens && next.keys == s.keys)
  {
    IdIsThere(s.accounts, id);
    EmailIsThere(s.accounts, Norm(email));
  }

  /** A sign-in names the account that has the address and the password, and none otherwise. */
  lemma SignedInExactly(s: Store, email: string, password: string, now: int)
    requires DistinctEmails(s.accounts)
    ensures var (next, r) := Step(s, Authenticate(email, password), now);
            && next == s
            && (forall a :: a in s.accounts && a.email == Norm(email) && a.password == password
                  ==> r == Resolved(a.id, a.email, a.verified))
            && ((exists a :: a in s.accounts && a.email == Norm(email) && a.password == password) || r == Nothing)
  {
    var r := Step(s, Authenticate(email, password), now).1;
    forall a | a in s.accounts && a.email == Norm(email) && a.password == password
      ensures r == Resolved(a.id, a.email, a.verified)
    {
      EmailHeld(s.accounts, a);
    }
    EmailFound(s.accounts, Norm(email));
  }

  /** A password is changed exactly for an id that an account has, and for a new password that is
      not empty; the parked reset goes, and of the account's sessions only the one kept stays. */
  lemma PasswordChangedExactly(s: Store, id: string, password: string, keep: string, now: int)
    ensures var (next, r) := Step(s, ChangePassword(id, password, keep), now);
            && r == Done(id != "" && password != "" && HasId(s.accounts, id))
            && (r == Done(false) ==> next == s)
            && (r == Done(true) ==>
                  && RowsAsBut(s.accounts, next.accounts, id,
                               (a: Account) => a.(password := password, reset := Pending(None, Unreadable)))
                  && next.keys == s.keys
                  && forall t :: t in next.tokens <==>
                       t in s.tokens && (t.account != id || (keep != "" && t.hash == keep)))
  {
    IdIsThere(s.accounts, id);
    CloseKeeps(s.tokens, id, keep);
  }

  /** An account is deleted exactly when its id is there and not empty, and with it go its sessions
      and its keys, and nobody else's. */
  lemma DeletedExactly(s: Store, id: string, now: int)
    ensures var (next, r) := Step(s, DeleteAccount(id), now);
            && r == Done(id != "" && HasId(s.accounts, id))
            && (id == "" ==> next == s)
            && (id != "" ==>
                  && (forall a :: a in next.accounts <==> a in s.accounts && a.id != id)
                  && (forall t :: t in next.tokens <==> t in s.tokens && t.account != id)
                  && (forall k :: k in next.keys <==> k in s.keys && k.account != id))
  {
    IdIsThere(s.accounts, id);
    CloseKeeps(s.tokens, id, "");
    KeptKeys(s.keys, id);
    RowsKept(s.accounts, id);
  }

  lemma {:induction false} RowsKept(accounts: seq<Account>, id: string)
    ensures forall a :: a in DropAccount(accounts, id) <==> a in accounts && a.id != id
  {
    if accounts != [] {
      RowsKept(accounts[1..], id);
      assert forall a :: a in accounts <==> a == accounts[0] || a in accounts[1..];
    }
  }

  // ---- sessions ---------------------------------------------------------------------------------------

  /** A session token is refused exactly when it is stored already, and is good for seven days. */
  lemma SessionIssuedExactly(s: Store, id: string, raw: string, now: int)
    ensures var (next, r) := Step(s, IssueLogin(id, raw), now);
            && (r == Refused <==> exists t :: t in s.tokens && t.hash == raw)
            && (r == Refused ==> next == s)
            && (r != Refused ==>
                  && r == Issued && next.accounts == s.accounts && next.keys == s.keys
                  && next.tokens == s.tokens + [LoginToken(id, raw, Aware(now + 7 * 24 * 3600))])
  {
    TokenIsThere(s.tokens, raw);
  }

  lemma {:induction false} TokenIsThere(tokens: seq<LoginToken>, raw: string)
    ensures var t := TokenAt(tokens, raw);
            && (t.Some? ==> t.value in tokens && t.value.hash == raw)
            && (t.None? ==> forall u :: u in tokens ==> u.hash != raw)
  {
    if tokens != [] {
      TokenIsThere(tokens[1..], raw);
      assert forall u :: u in tokens <==> u == tokens[0] || u in tokens[1..];
    }
  }

  /** Not over at this moment, as far as can be told. */
  predicate InTime(e: Stamp, now: int) { e.Unreadable? || (e.Aware? && now < e.at) }

  /** A session token resolves to its account while it is in time; a stamp without an offset is a
      failure, and in every other case nothing is named. */
  lemma SessionAnswersExactly(s: Store, raw: string, now: int, t: LoginToken)
    requires WellFormed(s) && t in s.tokens && t.hash == raw
    ensures var (next, r) := Step(s, LookupLogin(raw), now);
            && next == s
            && (r == TypeFailure <==> t.expires.Naive?)
            && (forall a :: a in s.accounts && a.id == t.account && InTime(t.expires, now)
                  ==> r == Resolved(a.id, a.email, a.verified))
            && ((InTime(t.expires, now) && HasId(s.accounts, t.account)) || t.expires.Naive? || r == Nothing)
  {
    assert raw in s.minted;
    TokenHeld(s.tokens, t);
    IdIsThere(s.accounts, t.account);
    forall a | a in s.accounts && a.id == t.account ensures AccountAt(s.accounts, t.account) == Some(a) {
      RowHeld(s.accounts, a);
    }
  }

  /** A token no row has names nobody. */
  lemma NoSessionNoAnswer(s: Store, raw: string, now: int)
    requires forall t :: t in s.tokens ==> t.hash != raw
    ensures Step(s, LookupLogin(raw), now) == (s, Nothing)
  {
    TokenIsThere(s.tokens, raw);
  }

  // ---- purging ------------------------------------------------------------------------------------------

  /** Past by this moment, a stamp without an offset read as UTC. */
  predicate Past(e: Stamp, now: int) { (e.Aware? || e.Naive?) && e.at <= now }

  predicate Stale(p: Pending, now: int) { p.hash.Some? && Past(p.expires, now) }

  /** A purge takes away the sessions that are past and the parked tokens that are, and nothing else. */
  lemma PurgedExactly(s: Store, now: int)
    ensures var next := Purged(s, now);
            && next.keys == s.keys && |next.accounts| == |s.accounts|
            && (forall t :: t in next.tokens <==> t in s.tokens && !Past(t.expires, now))
            && forall i :: 0 <= i < |s.accounts| ==>
                 var a := s.accounts[i];
                 next.accounts[i] == a.(verify := if Stale(a.verify, now) then Pending(None, Unreadable) else a.verify,
                                        reset := if Stale(a.reset, now) then Pending(None, Unreadable) else a.reset)
  {
    PastTokens(s.tokens, now);
  }

  lemma {:induction false} PastTokens(tokens: seq<LoginToken>, now: int)
    ensures forall t :: t in Live(tokens, now) <==> t in tokens && !Past(t.expires, now)
  {
    if tokens != [] {
      PastTokens(tokens[1..], now);
      assert forall t :: t in tokens <==> t == tokens[0] || t in tokens[1..];
    }
  }

  predicate StaleRow(a: Account, now: int, kind: Kind) {
    Stale(if kind.VerifyKind? then a.verify else a.reset, now)
  }

  ghost function StaleRows(accounts: seq<Account>, now: int, kind: Kind): set<int> {
    set i | 0 <= i < |accounts| && StaleRow(accounts[i], now, kind)
  }

  lemma StaleRowsNext(front: seq<Account>, last: Account, now: int, kind: Kind)
    ensures StaleRows(front + [last], now, kind)
            == StaleRows(front, now, kind) + if StaleRow(last, now, kind) then {|front|} else {}
    ensures |front| !in StaleRows(front, now, kind)
  {
    var all := front + [last];
    forall i | 0 <= i < |all|
      ensures i in StaleRows(all, now, kind)
              <==> i in StaleRows(front, now, kind) || (i == |front| && StaleRow(last, now, kind))
    {
      assert i < |front| ==> all[i] == front[i];
    }
  }

  lemma OneStaleMore(accounts: seq<Account>, now: int, kind: Kind)
    requires accounts != []
    ensures |StaleRows(accounts, now, kind)|
            == |StaleRows(accounts[..|accounts| - 1], now, kind)|
               + if StaleRow(accounts[|accounts| - 1], now, kind) then 1 else 0
  {
    var front, last := accounts[..|accounts| - 1], accounts[|accounts| - 1];
    assert accounts == front + [last];
    StaleRowsNext(front, last, now, kind);
  }

  lemma {:induction false} VerifyCounted(accounts: seq<Account>, now: int)
    ensures StaleVerify(accounts, now) == |StaleRows(accounts, now, VerifyKind)|
  {
    if accounts != [] {
      VerifyCounted(accounts[..|accounts| - 1], now);
      OneStaleMore(accounts, now, VerifyKind);
    }
  }

  lemma {:induction false} ResetCounted(accounts: seq<Account>, now: int)
    ensures StaleReset(accounts, now) == |StaleRows(accounts, now, ResetKind)|
  {
    if accounts != [] {
      ResetCounted(accounts[..|accounts| - 1], now);
      OneStaleMore(accounts, now, ResetKind);
    }
  }

  /** It counts the rows it takes a token from. */
  lemma {:induction false} PurgeCountsExactly(accounts: seq<Account>, now: int)
    ensures StaleVerify(accounts, now) == |StaleRows(accounts, now, VerifyKind)|
    ensures StaleReset(accounts, now) == |StaleRows(accounts, now, ResetKind)|
  {
    VerifyCounted(accounts, now);
    ResetCounted(accounts, now);
  }

  // ---- API keys -----------------------------------------------------------------------------------------

  lemma {:induction false} KeyIsThere(keys: seq<ApiKey>, raw: string)
    ensures var k := KeyAt(keys, raw);
            && (k.Some? ==> k.value in keys && k.value.hash == raw)
            && (k.None? ==> forall j :: j in keys ==> j.hash != raw)
  {
    if keys != [] {
      KeyIsThere(keys[1..], raw);
      assert forall j :: j in keys <==> j == keys[0] || j in keys[1..];
    }
  }

  lemma KeyIssuedExactly(s: Store, id: string, keyId: string, raw: string, now: int)
    ensures var (next, r) := Step(s, IssueKey(id, keyId, raw), now);
            && (r == Refused <==> exists k :: k in s.keys && k.hash == raw)
            && (r == Refused ==> next == s)
            && (r != Refused ==>
                  && r == Issued && next.accounts == s.accounts && next.tokens == s.tokens
                  && next.keys == s.keys + [ApiKey(keyId, id, raw, false)])
  {
    KeyIsThere(s.keys, raw);
  }

  /** A key resolves to its account unless it is revoked, and a text no row has to none. */
  lemma KeyAnswersExactly(s: Store, raw: string, now: int)
    requires WellFormed(s) && forall j, k :: j in s.keys && k in s.keys && j.hash == k.hash ==> j == k
    ensures var (next, r) := Step(s, LookupKey(raw), now);
            && next == s
            && (forall k, a :: k in s.keys && k.hash == raw && !k.revoked && a in s.accounts && a.id == k.account
                  ==> r == Resolved(a.id, a.email, a.verified))
            && ((exists k :: k in s.keys && k.hash == raw && !k.revoked && HasId(s.accounts, k.account))
                || r == Nothing)
  {
    KeyIsThere(s.keys, raw);
    var found := KeyAt(s.keys, raw);
    if found.Some? {
      assert raw in s.minted;
      IdIsThere(s.accounts, found.value.account);
      forall a | a in s.accounts && a.id == found.value.account
        ensures AccountAt(s.accounts, found.value.account) == Some(a)
      {
        RowHeld(s.accounts, a);
      }
    }
  }

  /** A key is revoked exactly when this account has it unrevoked; no other row changes. */
  lemma KeyRevokedExactly(s: Store, id: string, keyId: string, now: int)
    ensures var (next, r) := Step(s, RevokeKey(id, keyId), now);
            && r == Done(exists k :: k in s.keys && k.id == keyId && k.account == id && !k.revoked)
            && next.accounts == s.accounts && next.tokens == s.tokens && |next.keys| == |s.keys|
            && forall i :: 0 <= i < |s.keys| ==>
                 var k := s.keys[i];
                 next.keys[i] == if k.id == keyId && k.account == id then k.(revoked := true) else k
  {
    if k :| k in s.keys && CanUpdateKey(k, id, keyId) {
      assert k.id == keyId && k.account == id && !k.revoked;
    }
    if k :| k in s.keys && k.id == keyId && k.account == id && !k.revoked {
      assert CanUpdateKey(k, id, keyId);
    }
  }

  // ---- single-use tokens ------------------------------------------------------------------------------------

  /** A verification token replaces the account's, and is good for a day. */
  lemma VerifyIssuedExactly(s: Store, id: string, raw: string, now: int)
    ensures var (next, r) := Step(s, IssueVerify(id, raw), now);
            && r == Issued && next.tokens == s.tokens && next.keys == s.keys
            && RowsAsBut(s.accounts, next.accounts, id,
                         (a: Account) => a.(verify := Pending(Some(raw), Aware(now + 24 * 3600))))
  {
  }

  /** A parked verification token that is not over confirms its account, marks it verified and is
      spent; a stamp without an offset is a failure, and otherwise nothing is confirmed. */
  lemma VerifyConfirmedExactly(s: Store, a: Account, raw: string, now: int)
    requires WellFormed(s) && a in s.accounts && a.verify.hash == Some(raw)
    ensures var (next, r) := Step(s, ConfirmVerify(raw), now);
            && r == (if a.verify.expires.Naive? then TypeFailure
                     else if InTime(a.verify.expires, now) then Confirmed(a.id) else Nothing)
            && (!r.Confirmed? ==> next == s)
            && (r.Confirmed? ==>
                  && next.tokens == s.tokens && next.keys == s.keys
                  && RowsAsBut(s.accounts, next.accounts, a.id,
                               (b: Account) => b.(verified := true, verify := Pending(None, Unreadable))))
  {
    assert Minted(a.verify.hash, s.minted);
    VerifyHeld(s.accounts, a);
  }

  /** A reset token is issued exactly for an address that an account has, spaces and letter case
      aside; it replaces the one of that account and is good for an hour. */
  lemma ResetIssuedExactly(s: Store, email: string, raw: string, now: int)
    ensures var (next, r) := Step(s, IssueReset(email, raw), now);
            && (r == Issued <==> exists a :: a in s.accounts && a.email == Norm(email))
            && (r != Issued ==> r == Nothing && SameRows(s, next))
            && (r == Issued ==>
                  exists a :: a in s.accounts && a.email == Norm(email)
                       && RowsAsBut(s.accounts, next.accounts, a.id,
                                    (b: Account) => b.(reset := Pending(Some(raw), Aware(now + 3600))))
                       && next.tokens == s.tokens && next.keys == s.keys)
  {
    EmailIsThere(s.accounts, Norm(email));
    EmailFound(s.accounts, Norm(email));
    var found, next := AccountByEmail(s.accounts, Norm(email)), Step(s, IssueReset(email, raw), now).0;
    if found.Some? {
      assert RowsAsBut(s.accounts, next.accounts, found.value.id,
                       (b: Account) => b.(reset := Pending(Some(raw), Aware(now + 3600))));
    }
  }

  /** A parked reset token that is not over sets its account's password, is spent and closes all of
      the account's sessions. */
  lemma ResetConfirmedExactly(s: Store, a: Account, raw: string, password: string, now: int)
    requires WellFormed(s) && a in s.accounts && a.reset.hash == Some(raw)
    ensures var (next, r) := Step(s, ConfirmReset(raw, password), now);
            && r == (if a.reset.expires.Naive? then TypeFailure
                     else if InTime(a.reset.expires, now) then Confirmed(a.id) else Nothing)
            && (!r.Confirmed? ==> next == s)
            && (r.Confirmed? ==>
                  && RowsAsBut(s.accounts, next.accounts, a.id,
                               (b: Account) => b.(password := password, reset := Pending(None, Unreadable)))
                  && next.keys == s.keys
                  && forall t :: t in next.tokens <==> t in s.tokens && t.account != a.id)
  {
    assert Minted(a.reset.hash, s.minted);
    ResetHeld(s.accounts, a);
    CloseKeeps(s.tokens, a.id, "");
  }

  /** A token no row has parked confirms nothing. */
  lemma UnknownTokenExactly(s: Store, raw: string, password: string, now: int)
    ensures (forall a :: a in s.accounts ==> a.verify.hash != Some(raw))
            ==> Step(s, ConfirmVerify(raw), now) == (s, Nothing)
    ensures (forall a :: a in s.accounts ==> a.reset.hash != Some(raw))
            ==> Step(s, ConfirmReset(raw, password), now) == (s, Nothing)
  {
    VerifyFound(s.accounts, raw);
    ResetFound(s.accounts, raw);
  }
}
