/** What every run of the credential store keeps: ids and hashes stay unique, and every
    stored hash was minted (backend/app/core/accounts_store.py:354-726, 974-1070). */
module CredentialRules {
  import opened Common
  import opened CredentialStore

  predicate DistinctIds(accounts: seq<Account>) {
    forall i, j :: 0 <= i < j < |accounts| ==> accounts[i].id != accounts[j].id
  }

  predicate DistinctVerify(accounts: seq<Account>) {
    forall i, j :: 0 <= i < j < |accounts| && accounts[i].verify.hash.Some?
        ==> accounts[i].verify.hash != accounts[j].verify.hash
  }

  predicate DistinctReset(accounts: seq<Account>) {
    forall i, j :: 0 <= i < j < |accounts| && accounts[i].reset.hash.Some?
        ==> accounts[i].reset.hash != accounts[j].reset.hash
  }

  predicate DistinctTokens(tokens: seq<LoginToken>) {
    forall i, j :: 0 <= i < j < |tokens| ==> tokens[i].hash != tokens[j].hash
  }

  predicate Minted(h: Option<string>, minted: set<string>) { h.Some? ==> h.value in minted }

  predicate KnownAccounts(accounts: seq<Account>, minted: set<string>, ids: set<string>) {
    forall a :: a in accounts ==> a.id in ids && Minted(a.verify.hash, minted) && Minted(a.reset.hash, minted)
  }

  predicate KnownTokens(tokens: seq<LoginToken>, minted: set<string>) {
    forall t :: t in tokens ==> t.hash in minted
  }

  predicate KnownKeys(keys: seq<ApiKey>, minted: set<string>) {
    forall k :: k in keys ==> k.hash in minted
  }

  predicate GoodAccounts(accounts: seq<Account>, minted: set<string>, ids: set<string>) {
    DistinctIds(accounts) && DistinctVerify(accounts) && DistinctReset(accounts) && KnownAccounts(accounts, minted, ids)
  }

  predicate GoodTokens(tokens: seq<LoginToken>, minted: set<string>) {
    DistinctTokens(tokens) && KnownTokens(tokens, minted)
  }

  predicate WellFormed(s: Store) {
    && GoodAccounts(s.accounts, s.minted, s.ids)
    && GoodTokens(s.tokens, s.minted)
    && KnownKeys(s.keys, s.minted)
    && "" !in s.minted
  }

  /** Random tokens and ids do not come up twice, and no token is empty. */
  predicate OpFresh(s: Store, op: Op) {
    match op
    case CreateAccount(id, _, _) => id !in s.ids
    case IssueLogin(_, raw) => raw != "" && raw !in s.minted
    case IssueKey(_, _, raw) => raw != "" && raw !in s.minted
    case IssueVerify(_, raw) => raw != "" && raw !in s.minted
    case IssueReset(_, raw) => raw != "" && raw !in s.minted
    case _ => true
  }

  // ---- accounts ----------------------------------------------------------------------

  /** A row update that keeps the id and at most clears the single-use hashes. */
  predicate Weakened(a: Account, b: Account) {
    && b.id == a.id
    && (b.verify.hash == a.verify.hash || b.verify.hash.None?)
    && (b.reset.hash == a.reset.hash || b.reset.hash.None?)
  }

  lemma WeakenedGood(xs: seq<Account>, ys: seq<Account>, minted: set<string>, ids: set<string>)
    requires GoodAccounts(xs, minted, ids)
    requires |ys| == |xs| && forall i :: 0 <= i < |xs| ==> Weakened(xs[i], ys[i])
    ensures GoodAccounts(ys, minted, ids)
  {
    forall y | y in ys
      ensures y.id in ids && Minted(y.verify.hash, minted) && Minted(y.reset.hash, minted)
    {
      var i :| 0 <= i < |ys| && ys[i] == y;
      assert xs[i] in xs;
    }
  }

  lemma NewVerifyGood(xs: seq<Account>, id: string, raw: string, until: int, minted: set<string>, ids: set<string>)
    requires GoodAccounts(xs, minted, ids) && raw !in minted
    ensures GoodAccounts(WithAccount(xs, id, OfferVerify(raw, until)), minted + {raw}, ids)
  {
    var ys := WithAccount(xs, id, OfferVerify(raw, until));
    forall i | 0 <= i < |xs|
      ensures xs[i] in xs && ys[i].id == xs[i].id
              && (ys[i].verify.hash == xs[i].verify.hash || ys[i].verify.hash == Some(raw))
      ensures ys[i].id != id ==> ys[i] == xs[i]
      ensures ys[i].reset.hash == xs[i].reset.hash
    {
    }
  }

  lemma NewResetGood(xs: seq<Account>, id: string, raw: string, until: int, minted: set<string>, ids: set<string>)
    requires GoodAccounts(xs, minted, ids) && raw !in minted
    ensures GoodAccounts(WithAccount(xs, id, OfferReset(raw, until)), minted + {raw}, ids)
  {
    var ys := WithAccount(xs, id, OfferReset(raw, until));
    forall i | 0 <= i < |xs|
      ensures xs[i] in xs && ys[i].id == xs[i].id
              && (ys[i].reset.hash == xs[i].reset.hash || ys[i].reset.hash == Some(raw))
      ensures ys[i].id != id ==> ys[i] == xs[i]
      ensures ys[i].verify.hash == xs[i].verify.hash
    {
    }
  }

  lemma NewAccountGood(xs: seq<Account>, a: Account, minted: set<string>, ids: set<string>)
    requires GoodAccounts(xs, minted, ids) && a.id !in ids && a.verify.hash.None? && a.reset.hash.None?
    ensures GoodAccounts(xs + [a], minted, ids + {a.id})
  {
    forall i | 0 <= i < |xs| ensures xs[i] in xs && xs[i].id != a.id {
    }
  }

  lemma {:induction false} DropKeeps(xs: seq<Account>, id: string)
    ensures forall a :: a in DropAccount(xs, id) <==> a in xs && a.id != id
  {
    if xs != [] {
      DropKeeps(xs[1..], id);
      assert forall a :: a in xs <==> a == xs[0] || a in xs[1..];
    }
  }

  predicate Distinct(xs: seq<Account>) { DistinctIds(xs) && DistinctVerify(xs) && DistinctReset(xs) }

  predicate Differ(a: Account, b: Account) {
    && a.id != b.id
    && (a.verify.hash.Some? ==> a.verify.hash != b.verify.hash)
    && (a.reset.hash.Some? ==> a.reset.hash != b.reset.hash)
  }

  lemma TailDiffers(xs: seq<Account>)
    requires xs != [] && Distinct(xs)
    ensures Distinct(xs[1..]) && forall b :: b in xs[1..] ==> Differ(xs[0], b)
  {
  }

  lemma ConsDiffers(a: Account, rest: seq<Account>)
    requires Distinct(rest) && forall b :: b in rest ==> Differ(a, b)
    ensures Distinct([a] + rest)
  {
    var xs := [a] + rest;
    forall i, j | 0 <= i < j < |xs| ensures Differ(xs[i], xs[j]) {
      assert xs[j] == rest[j - 1];
      if i > 0 {
        assert xs[i] == rest[i - 1];
      }
    }
  }

  lemma {:induction false} DropDistinct(xs: seq<Account>, id: string)
    requires Distinct(xs)
    ensures Distinct(DropAccount(xs, id))
  {
    if xs != [] {
      TailDiffers(xs);
      DropDistinct(xs[1..], id);
      DropKeeps(xs[1..], id);
      ConsDiffers(xs[0], DropAccount(xs[1..], id));
    }
  }

  lemma {:induction false} DropGood(xs: seq<Account>, id: string, minted: set<string>, ids: set<string>)
    requires GoodAccounts(xs, minted, ids)
    ensures GoodAccounts(DropAccount(xs, id), minted, ids)
    ensures forall a :: a in DropAccount(xs, id) <==> a in xs && a.id != id
  {
    DropDistinct(xs, id);
    DropKeeps(xs, id);
  }

  // ---- login tokens ---------------------------------------------------------------------

  predicate Closing(t: LoginToken, account: string, keep: string) {
    t.account == account && (keep == "" || t.hash != keep)
  }

  lemma ConsDistinct(t: LoginToken, rest: seq<LoginToken>)
    requires DistinctTokens(rest) && forall u :: u in rest ==> u.hash != t.hash
    ensures DistinctTokens([t] + rest)
  {
  }

  lemma TailDistinct(ts: seq<LoginToken>)
    requires ts != [] && DistinctTokens(ts)
    ensures DistinctTokens(ts[1..]) && forall u :: u in ts[1..] ==> u.hash != ts[0].hash
  {
  }

  lemma {:induction false} CloseKeeps(ts: seq<LoginToken>, account: string, keep: string)
    ensures forall t :: t in CloseSessions(ts, account, keep) <==> t in ts && !Closing(t, account, keep)
  {
    if ts != [] {
      CloseKeeps(ts[1..], account, keep);
      assert forall t :: t in ts <==> t == ts[0] || t in ts[1..];
    }
  }

  lemma {:induction false} CloseDistinct(ts: seq<LoginToken>, account: string, keep: string)
    requires DistinctTokens(ts)
    ensures DistinctTokens(CloseSessions(ts, account, keep))
  {
    if ts != [] {
      TailDistinct(ts);
      CloseDistinct(ts[1..], account, keep);
      CloseKeeps(ts[1..], account, keep);
      ConsDistinct(ts[0], CloseSessions(ts[1..], account, keep));
    }
  }

  lemma {:induction false} CloseGood(ts: seq<LoginToken>, account: string, keep: string, minted: set<string>)
    requires GoodTokens(ts, minted)
    ensures GoodTokens(CloseSessions(ts, account, keep), minted)
  {
    CloseDistinct(ts, account, keep);
    CloseKeeps(ts, account, keep);
  }

  lemma {:induction false} LiveKeeps(ts: seq<LoginToken>, now: int)
    ensures forall t :: t in Live(ts, now) <==> t in ts && !IsExpired(t.expires, now)
  {
    if ts != [] {
      LiveKeeps(ts[1..], now);
      assert forall t :: t in ts <==> t == ts[0] || t in ts[1..];
    }
  }

  lemma {:induction false} LiveDistinct(ts: seq<LoginToken>, now: int)
    requires DistinctTokens(ts)
    ensures DistinctTokens(Live(ts, now))
  {
    if ts != [] {
      TailDistinct(ts);
      LiveDistinct(ts[1..], now);
      LiveKeeps(ts[1..], now);
      ConsDistinct(ts[0], Live(ts[1..], now));
    }
  }

  lemma {:induction false} LiveGood(ts: seq<LoginToken>, now: int, minted: set<string>)
    requires GoodTokens(ts, minted)
    ensures GoodTokens(Live(ts, now), minted)
  {
    LiveDistinct(ts, now);
    LiveKeeps(ts, now);
  }

  lemma NewTokenGood(ts: seq<LoginToken>, t: LoginToken, minted: set<string>)
    requires GoodTokens(ts, minted) && t.hash !in minted
    ensures GoodTokens(ts + [t], minted + {t.hash})
  {
    forall i | 0 <= i < |ts| ensures ts[i] in ts && ts[i].hash != t.hash {
    }
  }

  lemma {:induction false} KeysGood(ks: seq<ApiKey>, account: string, minted: set<string>)
    requires KnownKeys(ks, minted)
    ensures KnownKeys(DropKeys(ks, account), minted)
  {
    if ks != [] {
      assert ks[0] in ks && forall k :: k in ks[1..] ==> k in ks;
      KeysGood(ks[1..], account, minted);
    }
  }

  lemma MoreMinted(s: Store, minted: set<string>)
    requires WellFormed(s) && s.minted <= minted
    ensures GoodAccounts(s.accounts, minted, s.ids) && GoodTokens(s.tokens, minted) && KnownKeys(s.keys, minted)
  {
  }

  // ---- what an operation does to the accounts -----------------------------------------------

  datatype Change = Unchanged | Added(account: Account) | Dropped(id: string) | RowEdited(id: string, edit: Edit)

  function ChangeOf(s: Store, op: Op, now: int): Change {
    match op
    case CreateAccount(id, email, password) =>
      if AccountAt(s.accounts, id).Some? || AccountByEmail(s.accounts, Text.Norm(email)).Some? then Unchanged
      else Added(Account(id, Text.Norm(email), password, false, NOTHING_PENDING, NOTHING_PENDING))
    case IssueVerify(account, raw) => RowEdited(account, OfferVerify(raw, now + VERIFY_TTL))
    case IssueReset(email, raw) =>
      var a := AccountByEmail(s.accounts, Text.Norm(email));
      if a.None? then Unchanged else RowEdited(a.value.id, OfferReset(raw, now + RESET_TTL))
    case ConfirmVerify(raw) =>
      var a := AccountByVerify(s.accounts, raw);
      if Step(s, op, now).1.Confirmed? && a.Some? then RowEdited(a.value.id, MarkVerified) else Unchanged
    case ConfirmReset(raw, password) =>
      var a := AccountByReset(s.accounts, raw);
      if Step(s, op, now).1.Confirmed? && a.Some? then RowEdited(a.value.id, SetPassword(password)) else Unchanged
    case ChangePassword(account, password, _) =>
      if Step(s, op, now).1 == Done(true) then RowEdited(account, SetPassword(password)) else Unchanged
    case DeleteAccount(account) => if account == "" then Unchanged else Dropped(account)
    case _ => Unchanged
  }

  function Changed(accounts: seq<Account>, c: Change): seq<Account> {
    match c
    case Unchanged => accounts
    case Added(a) => accounts + [a]
    case Dropped(id) => DropAccount(accounts, id)
    case RowEdited(id, e) => WithAccount(accounts, id, e)
  }

  /** Every operation adds, drops or edits at most one account's rows. */
  lemma StepChanges(s: Store, op: Op, now: int)
    ensures Step(s, op, now).0.accounts == Changed(s.accounts, ChangeOf(s, op, now))
  {
  }

  // ---- the step --------------------------------------------------------------------------

  lemma IssuesKeepWellFormed(s: Store, op: Op, now: int)
    requires WellFormed(s) && OpFresh(s, op)
    requires op.IssueLogin? || op.IssueKey? || op.IssueVerify? || op.IssueReset?
    ensures WellFormed(Step(s, op, now).0)
  {
    MoreMinted(s, s.minted + {op.raw});
    match op
    case IssueLogin(account, raw) =>
      NewTokenGood(s.tokens, LoginToken(account, raw, Aware(now + LOGIN_TTL)), s.minted);
    case IssueVerify(account, raw) =>
      NewVerifyGood(s.accounts, account, raw, now + VERIFY_TTL, s.minted, s.ids);
    case IssueReset(email, raw) =>
      var a := AccountByEmail(s.accounts, Text.Norm(email));
      if a.Some? {
        NewResetGood(s.accounts, a.value.id, raw, now + RESET_TTL, s.minted, s.ids);
      }
    case _ =>
  }

  lemma ClearingGood(xs: seq<Account>, id: string, e: Edit, minted: set<string>, ids: set<string>)
    requires GoodAccounts(xs, minted, ids) && (e.MarkVerified? || e.SetPassword?)
    ensures GoodAccounts(WithAccount(xs, id, e), minted, ids)
  {
    WeakenedGood(xs, WithAccount(xs, id, e), minted, ids);
  }

  lemma EndsKeepWellFormed(s: Store, op: Op, now: int)
    requires WellFormed(s)
    requires op.ConfirmVerify? || op.ConfirmReset? || op.ChangePassword?
    ensures WellFormed(Step(s, op, now).0)
  {
    match op
    case ConfirmVerify(raw) =>
      var a := AccountByVerify(s.accounts, raw);
      if a.Some? {
        ClearingGood(s.accounts, a.value.id, MarkVerified, s.minted, s.ids);
      }
    case ConfirmReset(raw, password) =>
      var a := AccountByReset(s.accounts, raw);
      if a.Some? {
        ClearingGood(s.accounts, a.value.id, SetPassword(password), s.minted, s.ids);
        CloseGood(s.tokens, a.value.id, "", s.minted);
      }
    case ChangePassword(account, password, keep) =>
      ClearingGood(s.accounts, account, SetPassword(password), s.minted, s.ids);
      CloseGood(s.tokens, account, keep, s.minted);
  }

  lemma OthersKeepWellFormed(s: Store, op: Op, now: int)
    requires WellFormed(s) && OpFresh(s, op)
    requires op.CreateAccount? || op.DeleteAccount? || op.RevokeKey? || op.Authenticate? || op.LookupLogin?
             || op.LookupKey?
    ensures WellFormed(Step(s, op, now).0)
  {
    match op
    case CreateAccount(id, email, password) =>
      NewAccountGood(s.accounts, Account(id, Text.Norm(email), password, false, NOTHING_PENDING, NOTHING_PENDING),
          s.minted, s.ids);
    case DeleteAccount(account) =>
      DropGood(s.accounts, account, s.minted, s.ids);
      CloseGood(s.tokens, account, "", s.minted);
      KeysGood(s.keys, account, s.minted);
    case RevokeKey(account, keyId) =>
      var next := Step(s, op, now).0;
      forall k | k in next.keys ensures k.hash in s.minted {
        var i :| 0 <= i < |next.keys| && next.keys[i] == k;
        assert s.keys[i] in s.keys;
      }
    case _ =>
  }

  /** Every operation keeps ids and hashes unique. */
  lemma StepKeepsWellFormed(s: Store, op: Op, now: int)
    requires WellFormed(s) && OpFresh(s, op)
    ensures WellFormed(Step(s, op, now).0)
    ensures s.minted <= Step(s, op, now).0.minted && s.ids <= Step(s, op, now).0.ids
  {
    if op.IssueLogin? || op.IssueKey? || op.IssueVerify? || op.IssueReset? {
      IssuesKeepWellFormed(s, op, now);
    } else if op.ConfirmVerify? || op.ConfirmReset? || op.ChangePassword? {
      EndsKeepWellFormed(s, op, now);
    } else {
      OthersKeepWellFormed(s, op, now);
    }
  }

  lemma PurgeKeepsWellFormed(s: Store, now: int)
    requires WellFormed(s)
    ensures WellFormed(Purged(s, now))
  {
    var ys := Cleared(s.accounts, now);
    assert forall i :: 0 <= i < |s.accounts| ==> Weakened(s.accounts[i], ys[i]);
    WeakenedGood(s.accounts, ys, s.minted, s.ids);
    LiveGood(s.tokens, now, s.minted);
  }

  // ---- runs -------------------------------------------------------------------------------

  datatype Event = Do(op: Op, now: int) | Purge(now: int)

  function After(s: Store, e: Event): Store {
    match e
    case Do(op, now) => Step(s, op, now).0
    case Purge(now) => Purged(s, now)
  }

  /** What the callers see over a run; a purge answers nobody. */
  function Answers(s: Store, events: seq<Event>): seq<Answer>
    decreases |events|
  {
    if events == [] then []
    else
      var rest := Answers(After(s, events[0]), events[1..]);
      if events[0].Do? then [Step(s, events[0].op, events[0].now).1] + rest else rest
  }

  function Final(s: Store, events: seq<Event>): Store
    decreases |events|
  {
    if events == [] then s else Final(After(s, events[0]), events[1..])
  }

  /** The clock never runs backwards, and what is minted is new. */
  predicate Orderly(s: Store, from: int, events: seq<Event>)
    decreases |events|
  {
    events == [] ||
    (&& from <= events[0].now
     && (events[0].Do? ==> OpFresh(s, events[0].op))
     && Orderly(After(s, events[0]), events[0].now, events[1..]))
  }

  lemma {:induction false} RunKeepsWellFormed(s: Store, from: int, events: seq<Event>)
    requires WellFormed(s) && Orderly(s, from, events)
    ensures WellFormed(Final(s, events))
    decreases |events|
  {
    if events == [] {
    } else {
      AfterKeepsWellFormed(s, events[0]);
      RunKeepsWellFormed(After(s, events[0]), events[0].now, events[1..]);
    }
  }

  lemma AfterKeepsWellFormed(s: Store, e: Event)
    requires WellFormed(s) && (e.Do? ==> OpFresh(s, e.op))
    ensures WellFormed(After(s, e))
    ensures s.minted <= After(s, e).minted && s.ids <= After(s, e).ids
  {
    match e
    case Do(op, now) => StepKeepsWellFormed(s, op, now);
    case Purge(now) => PurgeKeepsWellFormed(s, now);
  }
}
