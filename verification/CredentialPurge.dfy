/** Purging seen from outside: when no later caller can tell a purged store from the
    store it was (backend/app/core/accounts_store.py:1002-1070). */
module CredentialPurge {
  import opened Common
  import opened CredentialRules
  import opened CredentialStore
  import opened Text

  // ---- sweeping: dropping just what every lookup already refuses -----------------------

  function SweptPending(p: Pending, now: int): Pending {
    if p.hash.Some? && Lapsed(p.expires, now) then NOTHING_PENDING else p
  }

  function SweptAccount(a: Account, now: int): Account {
    a.(verify := SweptPending(a.verify, now), reset := SweptPending(a.reset, now))
  }

  function SweptAccounts(accounts: seq<Account>, now: int): seq<Account> {
    seq(|accounts|, i requires 0 <= i < |accounts| => SweptAccount(accounts[i], now))
  }

  function SweptTokens(tokens: seq<LoginToken>, now: int): seq<LoginToken> {
    if tokens == [] then []
    else if Lapsed(tokens[0].expires, now) then SweptTokens(tokens[1..], now)
    else [tokens[0]] + SweptTokens(tokens[1..], now)
  }

  /** Two stores that differ only in lapsed material. */
  predicate Alike(s: Store, p: Store, now: int) {
    && SweptAccounts(s.accounts, now) == SweptAccounts(p.accounts, now)
    && SweptTokens(s.tokens, now) == SweptTokens(p.tokens, now)
    && s.keys == p.keys && s.minted == p.minted && s.ids == p.ids
  }

  lemma SweptTail(accounts: seq<Account>, now: int)
    requires accounts != []
    ensures SweptAccounts(accounts, now)[1..] == SweptAccounts(accounts[1..], now)
    ensures SweptAccounts(accounts, now)[0] == SweptAccount(accounts[0], now)
  {
  }

  // ---- lookups only see what a sweep keeps -------------------------------------------------

  lemma {:induction false} AccountSwept(accounts: seq<Account>, id: string, now: int)
    ensures var a := AccountAt(accounts, id);
            AccountAt(SweptAccounts(accounts, now), id) == if a.None? then None else Some(SweptAccount(a.value, now))
  {
    if accounts != [] {
      SweptTail(accounts, now);
      AccountSwept(accounts[1..], id, now);
    }
  }

  lemma {:induction false} EmailSwept(accounts: seq<Account>, email: string, now: int)
    ensures var a := AccountByEmail(accounts, email);
            AccountByEmail(SweptAccounts(accounts, now), email)
            == if a.None? then None else Some(SweptAccount(a.value, now))
  {
    if accounts != [] {
      SweptTail(accounts, now);
      EmailSwept(accounts[1..], email, now);
    }
  }

  lemma {:induction false} NobodyHolds(accounts: seq<Account>, hash: string)
    ensures (forall a :: a in accounts ==> a.verify.hash != Some(hash)) ==> AccountByVerify(accounts, hash).None?
    ensures (forall a :: a in accounts ==> a.reset.hash != Some(hash)) ==> AccountByReset(accounts, hash).None?
  {
    if accounts != [] {
      assert accounts[0] in accounts && forall a :: a in accounts[1..] ==> a in accounts;
      NobodyHolds(accounts[1..], hash);
    }
  }

  lemma {:induction false} VerifySwept(accounts: seq<Account>, hash: string, now: int)
    requires DistinctVerify(accounts)
    ensures var a := AccountByVerify(accounts, hash);
            AccountByVerify(SweptAccounts(accounts, now), hash)
            == if a.None? || Lapsed(a.value.verify.expires, now) then None else Some(SweptAccount(a.value, now))
  {
    if accounts != [] {
      SweptTail(accounts, now);
      if accounts[0].verify.hash == Some(hash) {
        NobodyHolds(SweptAccounts(accounts[1..], now), hash);
      } else {
        VerifySwept(accounts[1..], hash, now);
      }
    }
  }

  lemma {:induction false} ResetSwept(accounts: seq<Account>, hash: string, now: int)
    requires DistinctReset(accounts)
    ensures var a := AccountByReset(accounts, hash);
            AccountByReset(SweptAccounts(accounts, now), hash)
            == if a.None? || Lapsed(a.value.reset.expires, now) then None else Some(SweptAccount(a.value, now))
  {
    if accounts != [] {
      SweptTail(accounts, now);
      if accounts[0].reset.hash == Some(hash) {
        NobodyHolds(SweptAccounts(accounts[1..], now), hash);
      } else {
        ResetSwept(accounts[1..], hash, now);
      }
    }
  }

  lemma {:induction false} NoSuchToken(tokens: seq<LoginToken>, hash: string)
    ensures TokenAt(tokens, hash).None? <==> forall t :: t in tokens ==> t.hash != hash
    ensures TokenAt(tokens, hash).Some?
            ==> TokenAt(tokens, hash).value in tokens && TokenAt(tokens, hash).value.hash == hash
  {
    if tokens != [] {
      assert tokens[0] in tokens && forall t :: t in tokens <==> t == tokens[0] || t in tokens[1..];
      NoSuchToken(tokens[1..], hash);
    }
  }

  lemma {:induction false} SweptSubset(tokens: seq<LoginToken>, now: int)
    ensures forall t :: t in SweptTokens(tokens, now) ==> t in tokens
  {
    if tokens != [] {
      SweptSubset(tokens[1..], now);
    }
  }

  lemma {:induction false} TokenSwept(tokens: seq<LoginToken>, hash: string, now: int)
    requires DistinctTokens(tokens)
    ensures var t := TokenAt(tokens, hash);
            TokenAt(SweptTokens(tokens, now), hash) == if t.None? || Lapsed(t.value.expires, now) then None else t
  {
    if tokens != [] {
      if tokens[0].hash == hash {
        SweptSubset(tokens[1..], now);
        NoSuchToken(SweptTokens(tokens[1..], now), hash);
      } else {
        TokenSwept(tokens[1..], hash, now);
      }
    }
  }

  // ---- updates commute with a sweep ---------------------------------------------------------

  lemma EditAlike(x: Account, y: Account, e: Edit, now: int)
    requires SweptAccount(x, now) == SweptAccount(y, now)
    ensures SweptAccount(Edited(x, e), now) == SweptAccount(Edited(y, e), now)
  {
  }

  lemma UpdateAlike(xs: seq<Account>, ys: seq<Account>, id: string, e: Edit, now: int)
    requires SweptAccounts(xs, now) == SweptAccounts(ys, now)
    ensures SweptAccounts(WithAccount(xs, id, e), now) == SweptAccounts(WithAccount(ys, id, e), now)
  {
    assert |xs| == |SweptAccounts(xs, now)| == |ys|;
    forall i | 0 <= i < |xs|
      ensures SweptAccount(WithAccount(xs, id, e)[i], now) == SweptAccount(WithAccount(ys, id, e)[i], now)
    {
      assert SweptAccounts(xs, now)[i] == SweptAccounts(ys, now)[i];
      assert SweptAccount(xs[i], now) == SweptAccount(ys[i], now);
      EditAlike(xs[i], ys[i], e, now);
    }
  }

  lemma {:induction false} DropAlike(xs: seq<Account>, id: string, now: int)
    ensures SweptAccounts(DropAccount(xs, id), now) == DropAccount(SweptAccounts(xs, now), id)
  {
    if xs != [] {
      SweptTail(xs, now);
      DropAlike(xs[1..], id, now);
      var rest := DropAccount(xs[1..], id);
      assert SweptAccounts([xs[0]] + rest, now) == [SweptAccount(xs[0], now)] + SweptAccounts(rest, now);
    }
  }

  lemma {:induction false} CloseAlike(ts: seq<LoginToken>, account: string, keep: string, now: int)
    ensures SweptTokens(CloseSessions(ts, account, keep), now) == CloseSessions(SweptTokens(ts, now), account, keep)
  {
    if ts != [] {
      CloseAlike(ts[1..], account, keep, now);
      var rest := CloseSessions(ts[1..], account, keep);
      assert ([ts[0]] + rest)[1..] == rest;
    }
  }

  lemma {:induction false} AppendTokenAlike(ts: seq<LoginToken>, t: LoginToken, now: int)
    requires !Lapsed(t.expires, now)
    ensures SweptTokens(ts + [t], now) == SweptTokens(ts, now) + [t]
  {
    if ts == [] {
      assert [t][1..] == [];
    } else {
      assert (ts + [t])[1..] == ts[1..] + [t];
      AppendTokenAlike(ts[1..], t, now);
    }
  }

  lemma AppendAccountAlike(xs: seq<Account>, a: Account, now: int)
    ensures SweptAccounts(xs + [a], now) == SweptAccounts(xs, now) + [SweptAccount(a, now)]
  {
  }

  // ---- one step on two stores that differ only in lapsed material -----------------------------

  predicate StepsAlike(s: Store, p: Store, op: Op, now: int) {
    Step(s, op, now).1 == Step(p, op, now).1 && Alike(Step(s, op, now).0, Step(p, op, now).0, now)
  }

  lemma CreateAlike(s: Store, p: Store, op: Op, now: int)
    requires Alike(s, p, now) && op.CreateAccount?
    ensures StepsAlike(s, p, op, now)
  {
    AccountSwept(s.accounts, op.id, now);
    AccountSwept(p.accounts, op.id, now);
    EmailSwept(s.accounts, Norm(op.email), now);
    EmailSwept(p.accounts, Norm(op.email), now);
    var a := Account(op.id, Norm(op.email), op.password, false, NOTHING_PENDING, NOTHING_PENDING);
    AppendAccountAlike(s.accounts, a, now);
    AppendAccountAlike(p.accounts, a, now);
  }

  lemma ResolveAlike(s: Store, p: Store, id: string, now: int)
    requires Alike(s, p, now)
    ensures Resolve(s.accounts, id) == Resolve(p.accounts, id)
  {
    AccountSwept(s.accounts, id, now);
    AccountSwept(p.accounts, id, now);
  }

  lemma LookupLoginAlike(s: Store, p: Store, op: Op, now: int)
    requires Alike(s, p, now) && DistinctTokens(s.tokens) && DistinctTokens(p.tokens) && op.LookupLogin?
    ensures StepsAlike(s, p, op, now)
  {
    TokenSwept(s.tokens, op.raw, now);
    TokenSwept(p.tokens, op.raw, now);
    var t := TokenAt(s.tokens, op.raw);
    if t.Some? {
      ResolveAlike(s, p, t.value.account, now);
    }
  }

  lemma LookupKeyAlike(s: Store, p: Store, op: Op, now: int)
    requires Alike(s, p, now) && op.LookupKey?
    ensures StepsAlike(s, p, op, now)
  {
    var k := KeyAt(s.keys, op.raw);
    if k.Some? {
      ResolveAlike(s, p, k.value.account, now);
    }
  }

  lemma IssueLoginAlike(s: Store, p: Store, op: Op, now: int)
    requires Alike(s, p, now) && op.IssueLogin? && OpFresh(s, op)
    requires KnownTokens(s.tokens, s.minted) && KnownTokens(p.tokens, p.minted)
    ensures StepsAlike(s, p, op, now)
  {
    NoSuchToken(s.tokens, op.raw);
    NoSuchToken(p.tokens, op.raw);
    var t := LoginToken(op.account, op.raw, Aware(now + LOGIN_TTL));
    AppendTokenAlike(s.tokens, t, now);
    AppendTokenAlike(p.tokens, t, now);
  }

  lemma IssueVerifyAlike(s: Store, p: Store, op: Op, now: int)
    requires Alike(s, p, now) && op.IssueVerify?
    ensures StepsAlike(s, p, op, now)
  {
    UpdateAlike(s.accounts, p.accounts, op.account, OfferVerify(op.raw, now + VERIFY_TTL), now);
  }

  lemma IssueResetAlike(s: Store, p: Store, op: Op, now: int)
    requires Alike(s, p, now) && op.IssueReset?
    ensures StepsAlike(s, p, op, now)
  {
    EmailSwept(s.accounts, Norm(op.email), now);
    EmailSwept(p.accounts, Norm(op.email), now);
    var a := AccountByEmail(s.accounts, Norm(op.email));
    if a.Some? {
      UpdateAlike(s.accounts, p.accounts, a.value.id, OfferReset(op.raw, now + RESET_TTL), now);
    }
  }

  lemma ConfirmVerifyAlike(s: Store, p: Store, op: Op, now: int)
    requires Alike(s, p, now) && op.ConfirmVerify? && DistinctVerify(s.accounts) && DistinctVerify(p.accounts)
    ensures StepsAlike(s, p, op, now)
  {
    VerifySwept(s.accounts, op.raw, now);
    VerifySwept(p.accounts, op.raw, now);
    var a := AccountByVerify(s.accounts, op.raw);
    if a.Some? {
      UpdateAlike(s.accounts, p.accounts, a.value.id, MarkVerified, now);
    }
  }

  /** The row a reset token leads to, if it may still be used. */
  lemma {:induction false} ResetRowAlike(s: Store, p: Store, raw: string, now: int)
    requires Alike(s, p, now) && DistinctReset(s.accounts) && DistinctReset(p.accounts)
    ensures var a, b := AccountByReset(s.accounts, raw), AccountByReset(p.accounts, raw);
            var live := a.Some? && !Lapsed(a.value.reset.expires, now);
            && live == (b.Some? && !Lapsed(b.value.reset.expires, now))
            && (live ==> a.value.id == b.value.id && a.value.reset.expires.Naive? == b.value.reset.expires.Naive?)
            && (!live ==> !(a.Some? && a.value.reset.expires.Naive?) && !(b.Some? && b.value.reset.expires.Naive?))
  {
    ResetSwept(s.accounts, raw, now);
    ResetSwept(p.accounts, raw, now);
  }

  lemma ConfirmResetAlike(s: Store, p: Store, op: Op, now: int)
    requires Alike(s, p, now) && op.ConfirmReset? && DistinctReset(s.accounts) && DistinctReset(p.accounts)
    ensures StepsAlike(s, p, op, now)
  {
    ResetRowAlike(s, p, op.raw, now);
    var a := AccountByReset(s.accounts, op.raw);
    if a.Some? {
      UpdateAlike(s.accounts, p.accounts, a.value.id, SetPassword(op.password), now);
      CloseAlike(s.tokens, a.value.id, "", now);
      CloseAlike(p.tokens, a.value.id, "", now);
    }
  }

  lemma ChangePasswordAlike(s: Store, p: Store, op: Op, now: int)
    requires Alike(s, p, now) && op.ChangePassword?
    ensures StepsAlike(s, p, op, now)
  {
    AccountSwept(s.accounts, op.account, now);
    AccountSwept(p.accounts, op.account, now);
    UpdateAlike(s.accounts, p.accounts, op.account, SetPassword(op.password), now);
    CloseAlike(s.tokens, op.account, op.keep, now);
    CloseAlike(p.tokens, op.account, op.keep, now);
  }

  lemma DeleteAlike(s: Store, p: Store, op: Op, now: int)
    requires Alike(s, p, now) && op.DeleteAccount?
    ensures StepsAlike(s, p, op, now)
  {
    AccountSwept(s.accounts, op.account, now);
    AccountSwept(p.accounts, op.account, now);
    DropAlike(s.accounts, op.account, now);
    DropAlike(p.accounts, op.account, now);
    CloseAlike(s.tokens, op.account, "", now);
    CloseAlike(p.tokens, op.account, "", now);
  }

  lemma OthersAlike(s: Store, p: Store, op: Op, now: int)
    requires Alike(s, p, now)
    requires op.Authenticate? || op.IssueKey? || op.RevokeKey?
    ensures StepsAlike(s, p, op, now)
  {
    if op.Authenticate? {
      EmailSwept(s.accounts, Norm(op.email), now);
      EmailSwept(p.accounts, Norm(op.email), now);
    }
  }

  /** Material that has lapsed changes no answer, and stays without effect. */
  lemma LapsedIsInvisible(s: Store, p: Store, op: Op, now: int)
    requires WellFormed(s) && WellFormed(p) && Alike(s, p, now) && OpFresh(s, op)
    ensures StepsAlike(s, p, op, now)
  {
    match op
    case CreateAccount(_, _, _) => CreateAlike(s, p, op, now);
    case LookupLogin(_) => LookupLoginAlike(s, p, op, now);
    case LookupKey(_) => LookupKeyAlike(s, p, op, now);
    case IssueLogin(_, _) => IssueLoginAlike(s, p, op, now);
    case IssueVerify(_, _) => IssueVerifyAlike(s, p, op, now);
    case IssueReset(_, _) => IssueResetAlike(s, p, op, now);
    case ConfirmVerify(_) => ConfirmVerifyAlike(s, p, op, now);
    case ConfirmReset(_, _) => ConfirmResetAlike(s, p, op, now);
    case ChangePassword(_, _, _) => ChangePasswordAlike(s, p, op, now);
    case DeleteAccount(_) => DeleteAlike(s, p, op, now);
    case _ => OthersAlike(s, p, op, now);
  }
}
