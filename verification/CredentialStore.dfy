/** Accounts, login tokens, API keys and single-use tokens
    (backend/app/core/accounts_store.py:354-726, 974-1070). A token and its hash are
    one value here: hashing is taken to be injective. */
module CredentialStore {
  import opened Common
  import opened Text

  /** A stored expiry: absent or unparsable, with a UTC offset, or without one. */
  datatype Stamp = Unreadable | Aware(at: int) | Naive(at: int)

  const LOGIN_TTL := 7 * 86400
  const VERIFY_TTL := 24 * 3600
  const RESET_TTL := 3600

  /** A single-use token parked on the account row: its hash and its expiry. */
  datatype Pending = Pending(hash: Option<string>, expires: Stamp)

  const NOTHING_PENDING := Pending(None, Unreadable)

  datatype Account = Account(id: string, email: string, password: string, verified: bool,
                             verify: Pending, reset: Pending)

  datatype LoginToken = LoginToken(account: string, hash: string, expires: Stamp)

  datatype ApiKey = ApiKey(id: string, account: string, hash: string, revoked: bool)

  /** The tables, and beside them every token and every account id ever minted: both
      are random and never come up twice. */
  datatype Store = Store(accounts: seq<Account>, tokens: seq<LoginToken>, keys: seq<ApiKey>,
                         minted: set<string>, ids: set<string>)

  datatype Op =
    | CreateAccount(id: string, email: string, password: string)
    | Authenticate(email: string, password: string)
    | IssueLogin(account: string, raw: string)
    | LookupLogin(raw: string)
    | IssueKey(account: string, keyId: string, raw: string)
    | LookupKey(raw: string)
    | RevokeKey(account: string, keyId: string)
    | IssueVerify(account: string, raw: string)
    | ConfirmVerify(raw: string)
    | IssueReset(email: string, raw: string)
    | ConfirmReset(raw: string, password: string)
    | ChangePassword(account: string, password: string, keep: string)
    | DeleteAccount(account: string)

  /** What a caller sees. `TypeFailure` is Python refusing to compare a stamp without
      an offset to the clock; a refused insert or a failure changes nothing. */
  datatype Answer = Nothing | Resolved(id: string, email: string, verified: bool) | Confirmed(id: string)
                  | Issued | Done(changed: bool) | Refused | TypeFailure

  // ---- expiry ---------------------------------------------------------------------

  /** The token lookups' `expires is not None and expires <= _utcnow()`. */
  predicate Lapsed(e: Stamp, now: int) { e.Aware? && e.at <= now }

  /** `_is_expired`, which reads a stamp without an offset as UTC. */
  predicate IsExpired(e: Stamp, now: int) { !e.Unreadable? && e.at <= now }

  // ---- rows ------------------------------------------------------------------------

  function AccountAt(accounts: seq<Account>, id: string): Option<Account> {
    if accounts == [] then None else if accounts[0].id == id then Some(accounts[0]) else AccountAt(accounts[1..], id)
  }

  function AccountByEmail(accounts: seq<Account>, email: string): Option<Account> {
    if accounts == [] then None else if accounts[0].email == email then Some(accounts[0])
    else AccountByEmail(accounts[1..], email)
  }

  function AccountByVerify(accounts: seq<Account>, hash: string): Option<Account> {
    if accounts == [] then None else if accounts[0].verify.hash == Some(hash) then Some(accounts[0])
    else AccountByVerify(accounts[1..], hash)
  }

  function AccountByReset(accounts: seq<Account>, hash: string): Option<Account> {
    if accounts == [] then None else if accounts[0].reset.hash == Some(hash) then Some(accounts[0])
    else AccountByReset(accounts[1..], hash)
  }

  function TokenAt(tokens: seq<LoginToken>, hash: string): Option<LoginToken> {
    if tokens == [] then None else if tokens[0].hash == hash then Some(tokens[0]) else TokenAt(tokens[1..], hash)
  }

  function KeyAt(keys: seq<ApiKey>, hash: string): Option<ApiKey> {
    if keys == [] then None else if keys[0].hash == hash then Some(keys[0]) else KeyAt(keys[1..], hash)
  }

  function Resolve(accounts: seq<Account>, id: string): Answer {
    match AccountAt(accounts, id)
    case None => Nothing
    case Some(a) => Resolved(a.id, a.email, a.verified)
  }

  /** What the operations do to an account's row. */
  datatype Edit = OfferVerify(raw: string, until: int) | OfferReset(raw: string, until: int)
                | MarkVerified | SetPassword(password: string)

  function Edited(a: Account, e: Edit): Account {
    match e
    case OfferVerify(raw, until) => a.(verify := Pending(Some(raw), Aware(until)))
    case OfferReset(raw, until) => a.(reset := Pending(Some(raw), Aware(until)))
    case MarkVerified => a.(verified := true, verify := NOTHING_PENDING)
    case SetPassword(password) => a.(password := password, reset := NOTHING_PENDING)
  }

  /** An UPDATE of the row with this id. */
  function WithAccount(accounts: seq<Account>, id: string, e: Edit): seq<Account> {
    seq(|accounts|, i requires 0 <= i < |accounts| =>
      if accounts[i].id == id then Edited(accounts[i], e) else accounts[i])
  }

  /** A DELETE of an account's login tokens, but the one kept. */
  function CloseSessions(tokens: seq<LoginToken>, account: string, keep: string): seq<LoginToken> {
    if tokens == [] then []
    else
      var rest := CloseSessions(tokens[1..], account, keep);
      if tokens[0].account == account && (keep == "" || tokens[0].hash != keep) then rest else [tokens[0]] + rest
  }

  function DropKeys(keys: seq<ApiKey>, account: string): seq<ApiKey> {
    if keys == [] then []
    else if keys[0].account == account then DropKeys(keys[1..], account) else [keys[0]] + DropKeys(keys[1..], account)
  }

  function DropAccount(accounts: seq<Account>, id: string): seq<Account> {
    if accounts == [] then []
    else if accounts[0].id == id then DropAccount(accounts[1..], id) else [accounts[0]] + DropAccount(accounts[1..], id)
  }

  // ---- operations --------------------------------------------------------------------

  predicate CanUpdateKey(k: ApiKey, account: string, keyId: string) {
    k.id == keyId && k.account == account && !k.revoked
  }

  /** An UPDATE of the key's row, if it can be revoked. */
  function Revoked(keys: seq<ApiKey>, account: string, keyId: string): seq<ApiKey> {
    seq(|keys|, i requires 0 <= i < |keys| =>
      if CanUpdateKey(keys[i], account, keyId) then keys[i].(revoked := true) else keys[i])
  }

  function Step(s: Store, op: Op, now: int): (Store, Answer) {
    match op
    case CreateAccount(id, email, password) =>
      if AccountAt(s.accounts, id).Some? || AccountByEmail(s.accounts, Norm(email)).Some? then (s, Refused)
      else
        var a := Account(id, Norm(email), password, false, NOTHING_PENDING, NOTHING_PENDING);
        (s.(accounts := s.accounts + [a], ids := s.ids + {id}), Resolved(id, Norm(email), false))
    case Authenticate(email, password) =>
      var a := AccountByEmail(s.accounts, Norm(email));
      (s, if a.None? || a.value.password != password then Nothing
          else Resolved(a.value.id, a.value.email, a.value.verified))
    case IssueLogin(account, raw) =>
      if TokenAt(s.tokens, raw).Some? then (s, Refused)
      else (s.(tokens := s.tokens + [LoginToken(account, raw, Aware(now + LOGIN_TTL))],
               minted := s.minted + {raw}), Issued)
    case LookupLogin(raw) => (s, LoginAnswer(s, raw, now))
    case IssueKey(account, keyId, raw) =>
      if KeyAt(s.keys, raw).Some? then (s, Refused)
      else (s.(keys := s.keys + [ApiKey(keyId, account, raw, false)], minted := s.minted + {raw}), Issued)
    case LookupKey(raw) =>
      var k := KeyAt(s.keys, raw);
      (s, if raw == "" || k.None? || k.value.revoked then Nothing else Resolve(s.accounts, k.value.account))
    case RevokeKey(account, keyId) =>
      (s.(keys := Revoked(s.keys, account, keyId)),
       Done(exists k :: k in s.keys && CanUpdateKey(k, account, keyId)))
    case IssueVerify(account, raw) =>
      (s.(accounts := WithAccount(s.accounts, account, OfferVerify(raw, now + VERIFY_TTL)),
          minted := s.minted + {raw}), Issued)
    case ConfirmVerify(raw) =>
      var a := AccountByVerify(s.accounts, raw);
      if raw == "" || a.None? then (s, Nothing)
      else if a.value.verify.expires.Naive? then (s, TypeFailure)
      else if Lapsed(a.value.verify.expires, now) then (s, Nothing)
      else (s.(accounts := WithAccount(s.accounts, a.value.id, MarkVerified)), Confirmed(a.value.id))
    case IssueReset(email, raw) =>
      var a := AccountByEmail(s.accounts, Norm(email));
      if a.None? then (s.(minted := s.minted + {raw}), Nothing)
      else (s.(accounts := WithAccount(s.accounts, a.value.id, OfferReset(raw, now + RESET_TTL)),
               minted := s.minted + {raw}), Issued)
    case ConfirmReset(raw, password) =>
      var a := AccountByReset(s.accounts, raw);
      if raw == "" || a.None? then (s, Nothing)
      else if a.value.reset.expires.Naive? then (s, TypeFailure)
      else if Lapsed(a.value.reset.expires, now) then (s, Nothing)
      else (s.(accounts := WithAccount(s.accounts, a.value.id, SetPassword(password)),
               tokens := CloseSessions(s.tokens, a.value.id, "")), Confirmed(a.value.id))
    case ChangePassword(account, password, keep) =>
      if account == "" || password == "" || AccountAt(s.accounts, account).None? then (s, Done(false))
      else (s.(accounts := WithAccount(s.accounts, account, SetPassword(password)),
               tokens := CloseSessions(s.tokens, account, keep)), Done(true))
    case DeleteAccount(account) =>
      if account == "" then (s, Done(false))
      else (s.(accounts := DropAccount(s.accounts, account), tokens := CloseSessions(s.tokens, account, ""),
               keys := DropKeys(s.keys, account)), Done(AccountAt(s.accounts, account).Some?))
  }

  /** `account_for_login_token`. */
  function LoginAnswer(s: Store, raw: string, now: int): Answer {
    var t := TokenAt(s.tokens, raw);
    if raw == "" || t.None? then Nothing
    else if t.value.expires.Naive? then TypeFailure
    else if Lapsed(t.value.expires, now) then Nothing
    else Resolve(s.accounts, t.value.account)
  }

  // ---- purging -------------------------------------------------------------------------

  function Cleansed(p: Pending, now: int): Pending {
    if p.hash.Some? && IsExpired(p.expires, now) then NOTHING_PENDING else p
  }

  function Cleared(accounts: seq<Account>, now: int): seq<Account> {
    seq(|accounts|, i requires 0 <= i < |accounts| =>
      accounts[i].(verify := Cleansed(accounts[i].verify, now), reset := Cleansed(accounts[i].reset, now)))
  }

  function Live(tokens: seq<LoginToken>, now: int): seq<LoginToken> {
    if tokens == [] then []
    else if IsExpired(tokens[0].expires, now) then Live(tokens[1..], now) else [tokens[0]] + Live(tokens[1..], now)
  }

  /** The store once `purge_expired_tokens` has run. */
  function Purged(s: Store, now: int): Store {
    s.(accounts := Cleared(s.accounts, now), tokens := Live(s.tokens, now))
  }

  function StaleVerify(accounts: seq<Account>, now: int): nat {
    if accounts == [] then 0
    else StaleVerify(accounts[..|accounts| - 1], now)
         + if Cleansed(accounts[|accounts| - 1].verify, now) != accounts[|accounts| - 1].verify then 1 else 0
  }

  function StaleReset(accounts: seq<Account>, now: int): nat {
    if accounts == [] then 0
    else StaleReset(accounts[..|accounts| - 1], now)
         + if Cleansed(accounts[|accounts| - 1].reset, now) != accounts[|accounts| - 1].reset then 1 else 0
  }

  // ---- the store as the program has it -----------------------------------------------------

  class AccountsStore {
    var accounts: seq<Account>
    var tokens: seq<LoginToken>
    var keys: seq<ApiKey>
    ghost var minted: set<string>
    ghost var ids: set<string>

    ghost function State(): Store reads this { Store(accounts, tokens, keys, minted, ids) }

    constructor ()
      ensures State() == Store([], [], [], {}, {})
    {
      accounts, tokens, keys, minted, ids := [], [], [], {}, {};
    }

    method CreateAccount(id: string, email: string, password: string, now: int) returns (r: Answer)
      modifies this
      ensures (State(), r) == Step(old(State()), Op.CreateAccount(id, email, password), now)
    {
      var norm := Norm(email);
      if AccountAt(accounts, id).Some? || AccountByEmail(accounts, norm).Some? {
        return Refused;
      }
      accounts := accounts + [Account(id, norm, password, false, NOTHING_PENDING, NOTHING_PENDING)];
      ids := ids + {id};
      r := Resolved(id, norm, false);
    }

    method SignIn(email: string, password: string, now: int) returns (r: Answer)
      ensures (State(), r) == Step(State(), Authenticate(email, password), now)
    {
      var row := AccountByEmail(accounts, Norm(email));
      if row.None? || row.value.password != password {
        return Nothing;
      }
      r := Resolved(row.value.id, row.value.email, row.value.verified);
    }

    method IssueLoginToken(account: string, raw: string, now: int) returns (r: Answer)
      modifies this
      ensures (State(), r) == Step(old(State()), IssueLogin(account, raw), now)
    {
      if TokenAt(tokens, raw).Some? {
        return Refused;
      }
      tokens := tokens + [LoginToken(account, raw, Aware(now + LOGIN_TTL))];
      minted := minted + {raw};
      r := Issued;
    }

    method AccountForLoginToken(raw: string, now: int) returns (r: Answer)
      ensures (State(), r) == Step(State(), LookupLogin(raw), now)
    {
      if raw == "" {
        return Nothing;
      }
      var row := TokenAt(tokens, raw);
      if row.None? {
        return Nothing;
      }
      if row.value.expires.Naive? {
        return TypeFailure;
      }
      if row.value.expires.Aware? && row.value.expires.at <= now {
        return Nothing;
      }
      r := Resolve(accounts, row.value.account);
    }

    method IssueApiKey(account: string, keyId: string, raw: string, now: int) returns (r: Answer)
      modifies this
      ensures (State(), r) == Step(old(State()), IssueKey(account, keyId, raw), now)
    {
      if KeyAt(keys, raw).Some? {
        return Refused;
      }
      keys := keys + [ApiKey(keyId, account, raw, false)];
      minted := minted + {raw};
      r := Issued;
    }

    method AccountForApiKey(raw: string, now: int) returns (r: Answer)
      ensures (State(), r) == Step(State(), LookupKey(raw), now)
    {
      if raw == "" {
        return Nothing;
      }
      var row := KeyAt(keys, raw);
      if row.None? || row.value.revoked {
        return Nothing;
      }
      r := Resolve(accounts, row.value.account);
    }

    method RevokeApiKey(account: string, keyId: string, now: int) returns (r: Answer)
      modifies this
      ensures (State(), r) == Step(old(State()), RevokeKey(account, keyId), now)
    {
      r := Done(exists k :: k in keys && CanUpdateKey(k, account, keyId));
      keys := Revoked(keys, account, keyId);
    }

    method IssueVerifyToken(account: string, raw: string, now: int) returns (r: Answer)
      modifies this
      ensures (State(), r) == Step(old(State()), IssueVerify(account, raw), now)
    {
      accounts := WithAccount(accounts, account, OfferVerify(raw, now + VERIFY_TTL));
      minted := minted + {raw};
      r := Issued;
    }

    method ConfirmVerifyToken(raw: string, now: int) returns (r: Answer)
      modifies this
      ensures (State(), r) == Step(old(State()), ConfirmVerify(raw), now)
    {
      if raw == "" {
        return Nothing;
      }
      var row := AccountByVerify(accounts, raw);
      if row.None? {
        return Nothing;
      }
      if row.value.verify.expires.Naive? {
        return TypeFailure;
      }
      if row.value.verify.expires.Aware? && row.value.verify.expires.at <= now {
        return Nothing;
      }
      accounts := WithAccount(accounts, row.value.id, MarkVerified);
      r := Confirmed(row.value.id);
    }

    method IssueResetToken(email: string, raw: string, now: int) returns (r: Answer)
      modifies this
      ensures (State(), r) == Step(old(State()), IssueReset(email, raw), now)
    {
      var row := AccountByEmail(accounts, Norm(email));
      minted := minted + {raw};
      if row.None? {
        return Nothing;
      }
      accounts := WithAccount(accounts, row.value.id, OfferReset(raw, now + RESET_TTL));
      r := Issued;
    }

    method ConfirmResetToken(raw: string, password: string, now: int) returns (r: Answer)
      modifies this
      ensures (State(), r) == Step(old(State()), ConfirmReset(raw, password), now)
    {
      if raw == "" {
        return Nothing;
      }
      var row := AccountByReset(accounts, raw);
      if row.None? {
        return Nothing;
      }
      if row.value.reset.expires.Naive? {
        return TypeFailure;
      }
      if row.value.reset.expires.Aware? && row.value.reset.expires.at <= now {
        return Nothing;
      }
      accounts := WithAccount(accounts, row.value.id, SetPassword(password));
      tokens := CloseSessions(tokens, row.value.id, "");
      r := Confirmed(row.value.id);
    }

    method ChangeAccountPassword(account: string, password: string, keep: string, now: int) returns (r: Answer)
      modifies this
      ensures (State(), r) == Step(old(State()), ChangePassword(account, password, keep), now)
    {
      if account == "" || password == "" {
        return Done(false);
      }
      if AccountAt(accounts, account).None? {
        return Done(false);
      }
      accounts := WithAccount(accounts, account, SetPassword(password));
      tokens := CloseSessions(tokens, account, keep);
      r := Done(true);
    }

    method DeleteAccount(account: string, now: int) returns (r: Answer)
      modifies this
      ensures (State(), r) == Step(old(State()), Op.DeleteAccount(account), now)
    {
      if account == "" {
        return Done(false);
      }
      keys := DropKeys(keys, account);
      tokens := CloseSessions(tokens, account, "");
      var removed := AccountAt(accounts, account).Some?;
      accounts := DropAccount(accounts, account);
      r := Done(removed);
    }

    /** Whichever operation is asked for, it is done and answered as the step says. */
    method Handle(op: Op, now: int) returns (r: Answer)
      modifies this
      ensures (State(), r) == Step(old(State()), op, now)
    {
      match op
      case CreateAccount(id, email, password) => r := CreateAccount(id, email, password, now);
      case Authenticate(email, password) => r := SignIn(email, password, now);
      case IssueLogin(account, raw) => r := IssueLoginToken(account, raw, now);
      case LookupLogin(raw) => r := AccountForLoginToken(raw, now);
      case IssueKey(account, keyId, raw) => r := IssueApiKey(account, keyId, raw, now);
      case LookupKey(raw) => r := AccountForApiKey(raw, now);
      case RevokeKey(account, keyId) => r := RevokeApiKey(account, keyId, now);
      case IssueVerify(account, raw) => r := IssueVerifyToken(account, raw, now);
      case ConfirmVerify(raw) => r := ConfirmVerifyToken(raw, now);
      case IssueReset(email, raw) => r := IssueResetToken(email, raw, now);
      case ConfirmReset(raw, password) => r := ConfirmResetToken(raw, password, now);
      case ChangePassword(account, password, keep) => r := ChangeAccountPassword(account, password, keep, now);
      case DeleteAccount(account) => r := DeleteAccount(account, now);
    }

    /** `purge_expired_tokens`: drop stale login tokens, then clear stale single-use
        tokens account by account, counting each. */
    method PurgeExpiredTokens(now: int) returns (removedLogin: nat, clearedVerify: nat, clearedReset: nat)
      modifies this
      ensures State() == Purged(old(State()), now)
      ensures removedLogin == |old(tokens)| - |tokens|
      ensures clearedVerify == StaleVerify(old(accounts), now)
      ensures clearedReset == StaleReset(old(accounts), now)
    {
      var kept := LiveTokens(now);
      LiveShorter(tokens, now);
      removedLogin := |tokens| - |kept|;
      tokens := kept;
      clearedVerify, clearedReset := ClearStale(now);
    }

    /** The loop over the accounts. */
    method ClearStale(now: int) returns (clearedVerify: nat, clearedReset: nat)
      modifies this`accounts
      ensures accounts == Cleared(old(accounts), now)
      ensures clearedVerify == StaleVerify(old(accounts), now)
      ensures clearedReset == StaleReset(old(accounts), now)
    {
      ghost var start := accounts;
      clearedVerify, clearedReset := 0, 0;
      var i := 0;
      while i < |accounts|
        invariant 0 <= i <= |accounts| == |start|
        invariant forall k :: 0 <= k < i ==> accounts[k] == Cleared(start, now)[k]
        invariant forall k :: i <= k < |start| ==> accounts[k] == start[k]
        invariant clearedVerify == StaleVerify(start[..i], now)
        invariant clearedReset == StaleReset(start[..i], now)
      {
        var row := accounts[i];
        StaleNext(start, i, now);
        var verify := row.verify.hash.Some? && IsExpired(row.verify.expires, now);
        var reset := row.reset.hash.Some? && IsExpired(row.reset.expires, now);
        if verify {
          accounts := accounts[i := accounts[i].(verify := NOTHING_PENDING)];
          clearedVerify := clearedVerify + 1;
        }
        if reset {
          accounts := accounts[i := accounts[i].(reset := NOTHING_PENDING)];
          clearedReset := clearedReset + 1;
        }
        i := i + 1;
      }
      assert start[..i] == start;
    }

    /** The tokens the DELETE leaves. */
    method LiveTokens(now: int) returns (kept: seq<LoginToken>)
      ensures kept == Live(tokens, now)
    {
      kept := [];
      var i := |tokens|;
      while i > 0
        invariant 0 <= i <= |tokens|
        invariant kept == Live(tokens[i..], now)
      {
        i := i - 1;
        assert tokens[i..][1..] == tokens[i + 1..];
        if !IsExpired(tokens[i].expires, now) {
          kept := [tokens[i]] + kept;
        }
      }
      assert tokens[i..] == tokens;
    }
  }

  lemma {:induction false} LiveShorter(tokens: seq<LoginToken>, now: int)
    ensures |Live(tokens, now)| <= |tokens|
  {
    if tokens != [] {
      LiveShorter(tokens[1..], now);
    }
  }

  lemma {:induction false} StaleNext(accounts: seq<Account>, i: nat, now: int)
    requires i < |accounts|
    ensures var a := accounts[i];
            && StaleVerify(accounts[..i + 1], now)
               == StaleVerify(accounts[..i], now)
                  + (if a.verify.hash.Some? && IsExpired(a.verify.expires, now) then 1 else 0)
            && StaleReset(accounts[..i + 1], now)
               == StaleReset(accounts[..i], now)
                  + (if a.reset.hash.Some? && IsExpired(a.reset.expires, now) then 1 else 0)
  {
    assert accounts[..i + 1][..i] == accounts[..i];
  }
}
