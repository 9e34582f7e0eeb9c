/** For how long exactly a single-use token is good, over every later run
    (backend/app/core/accounts_store.py:563-726, 974-1070). */
module TokenLifetimes {
  import opened Common
  import opened CredentialLifetimes
  import opened CredentialRules
  import opened CredentialRuns
  import opened CredentialStore
  import opened CredentialUse
  import opened Text

  predicate SingleUse(kind: Kind) { !kind.LoginKind? }

  /** The token that an account's row has parked, of this kind. */
  function PendingOf(a: Account, kind: Kind): Pending { if kind.VerifyKind? then a.verify else a.reset }

  /** The account is there, under this email, and this token is parked on its row. */
  predicate Offers(s: Store, kind: Kind, id: string, email: string, raw: string, until: int) {
    var a := AccountAt(s.accounts, id);
    a.Some? && a.value.email == email && PendingOf(a.value, kind) == Pending(Some(raw), Aware(until))
  }

  /** Whether an event ends this token: its own confirmation, another one issued for its account,
      that account's deletion, and, for a reset, a change of that account's password. */
  predicate Ends(s: Store, e: Event, kind: Kind, id: string, raw: string) {
    && e.Do?
    && match e.op
       case ConfirmVerify(h) => kind.VerifyKind? && h == raw && Step(s, e.op, e.now).1 == Confirmed(id)
       case IssueVerify(account, _) => kind.VerifyKind? && account == id
       case ConfirmReset(h, _) => kind.ResetKind? && h == raw && Step(s, e.op, e.now).1 == Confirmed(id)
       case IssueReset(email, _) => kind.ResetKind? && Owns(s, id, Norm(email))
       case ChangePassword(account, _, _) => kind.ResetKind? && account == id && Step(s, e.op, e.now).1 == Done(true)
       case DeleteAccount(account) => account == id != ""
       case _ => false
  }

  predicate Owns(s: Store, id: string, email: string) {
    AccountByEmail(s.accounts, email).Some? && AccountByEmail(s.accounts, email).value.id == id
  }

  predicate EndedBy(s: Store, events: seq<Event>, kind: Kind, id: string, raw: string)
    decreases |events|
  {
    events != [] && (Ends(s, events[0], kind, id, raw) || EndedBy(After(s, events[0]), events[1..], kind, id, raw))
  }

  // ---- one event -------------------------------------------------------------------------------

  lemma {:induction false} AddedRow(accounts: seq<Account>, a: Account, id: string)
    requires AccountAt(accounts, id).Some?
    ensures AccountAt(accounts + [a], id) == AccountAt(accounts, id)
  {
    if accounts[0].id != id {
      assert (accounts + [a])[1..] == accounts[1..] + [a];
      AddedRow(accounts[1..], a, id);
    }
  }

  lemma {:induction false} DroppedRow(accounts: seq<Account>, dropped: string, id: string)
    ensures AccountAt(DropAccount(accounts, dropped), id)
            == if id == dropped then None else AccountAt(accounts, id)
  {
    if accounts != [] {
      DroppedRow(accounts[1..], dropped, id);
    }
  }

  lemma {:induction false} ClearedRow(accounts: seq<Account>, now: int, id: string)
    requires AccountAt(accounts, id).Some?
    ensures var a := AccountAt(accounts, id).value;
            AccountAt(Cleared(accounts, now), id)
            == Some(a.(verify := Cleansed(a.verify, now), reset := Cleansed(a.reset, now)))
  {
    if accounts[0].id != id {
      assert Cleared(accounts, now)[1..] == Cleared(accounts[1..], now);
      ClearedRow(accounts[1..], now, id);
    }
  }

  /** Whether an edit takes a parked token of this kind off the row. */
  predicate Replaces(e: Edit, kind: Kind) {
    match e
    case OfferVerify(_, _) => kind.VerifyKind?
    case MarkVerified => kind.VerifyKind?
    case OfferReset(_, _) => kind.ResetKind?
    case SetPassword(_) => kind.ResetKind?
  }

  lemma ReplacedOrNot(a: Account, e: Edit, kind: Kind)
    requires SingleUse(kind)
    ensures !Replaces(e, kind) ==> PendingOf(Edited(a, e), kind) == PendingOf(a, kind)
    ensures Edited(a, e).email == a.email
  {
  }

  /** The change an operation makes to the accounts ends the token. */
  predicate Ending(c: Change, kind: Kind, id: string) {
    (c.Dropped? && c.id == id) || (c.RowEdited? && c.id == id && Replaces(c.edit, kind))
  }

  lemma {:induction false} ChangeStays(accounts: seq<Account>, c: Change, kind: Kind, id: string)
    requires DistinctIds(accounts) && AccountAt(accounts, id).Some? && SingleUse(kind) && !Ending(c, kind, id)
    ensures var a, b := AccountAt(accounts, id).value, AccountAt(Changed(accounts, c), id);
            b.Some? && b.value.email == a.email && PendingOf(b.value, kind) == PendingOf(a, kind)
  {
    match c
    case Unchanged =>
    case Added(a) => AddedRow(accounts, a, id);
    case Dropped(other) => DroppedRow(accounts, other, id);
    case RowEdited(other, e) =>
      RowUpdated(accounts, other, e);
      ReplacedOrNot(AccountAt(accounts, id).value, e, kind);
  }

  /** The holder of a parked hash is the account that has it. */
  lemma {:induction false} HolderIs(s: Store, kind: Kind, id: string, email: string, raw: string, until: int)
    requires WellFormed(s) && SingleUse(kind) && Offers(s, kind, id, email, raw, until)
    ensures kind.VerifyKind? ==> AccountByVerify(s.accounts, raw) == AccountAt(s.accounts, id)
    ensures kind.ResetKind? ==> AccountByReset(s.accounts, raw) == AccountAt(s.accounts, id)
    ensures raw in s.minted && raw != ""
  {
    RowFound(s.accounts, id);
    if kind.VerifyKind? {
      VerifyHeld(s.accounts, AccountAt(s.accounts, id).value);
    } else {
      ResetHeld(s.accounts, AccountAt(s.accounts, id).value);
    }
  }

  lemma {:induction false} VerifyEnding(s: Store, h: string, now: int, kind: Kind, id: string, email: string,
                                        raw: string, until: int)
    requires WellFormed(s) && SingleUse(kind) && Offers(s, kind, id, email, raw, until)
    ensures Ending(ChangeOf(s, ConfirmVerify(h), now), kind, id) <==> Ends(s, Do(ConfirmVerify(h), now), kind, id, raw)
  {
    var a := AccountByVerify(s.accounts, h);
    HolderIs(s, kind, id, email, raw, until);
    VerifyFound(s.accounts, h);
    if a.Some? && a.value.id == id {
      RowHeld(s.accounts, a.value);
    }
  }

  lemma {:induction false} ResetEnding(s: Store, h: string, password: string, now: int, kind: Kind, id: string,
                                       email: string, raw: string, until: int)
    requires WellFormed(s) && SingleUse(kind) && Offers(s, kind, id, email, raw, until)
    ensures Ending(ChangeOf(s, ConfirmReset(h, password), now), kind, id)
            <==> Ends(s, Do(ConfirmReset(h, password), now), kind, id, raw)
  {
    var a := AccountByReset(s.accounts, h);
    HolderIs(s, kind, id, email, raw, until);
    ResetFound(s.accounts, h);
    if a.Some? && a.value.id == id {
      RowHeld(s.accounts, a.value);
    }
  }

  /** An operation's change ends the token exactly when the event does. */
  lemma {:induction false} EndingExactly(s: Store, op: Op, now: int, kind: Kind, id: string, email: string,
                                         raw: string, until: int)
    requires WellFormed(s) && SingleUse(kind) && Offers(s, kind, id, email, raw, until)
    ensures Ending(ChangeOf(s, op, now), kind, id) <==> Ends(s, Do(op, now), kind, id, raw)
  {
    match op
    case ConfirmVerify(h) => VerifyEnding(s, h, now, kind, id, email, raw, until);
    case ConfirmReset(h, password) => ResetEnding(s, h, password, now, kind, id, email, raw, until);
    case _ =>
  }

  /** A row with the parked hash is the account's own. */
  lemma {:induction false} OnlyHolder(s: Store, kind: Kind, id: string, email: string, raw: string, until: int,
                                      a: Account)
    requires WellFormed(s) && SingleUse(kind) && Offers(s, kind, id, email, raw, until)
    requires a in s.accounts && PendingOf(a, kind).hash == Some(raw)
    ensures a.id == id && AccountAt(s.accounts, id) == Some(a)
  {
    HolderIs(s, kind, id, email, raw, until);
    RowFound(s.accounts, id);
    if kind.VerifyKind? {
      VerifyHeld(s.accounts, a);
    } else {
      ResetHeld(s.accounts, a);
    }
  }

  /** A token newly parked is another one. */
  predicate OtherToken(c: Change, raw: string) {
    c.RowEdited? && (c.edit.OfferVerify? || c.edit.OfferReset?) ==> c.edit.raw != raw
  }

  lemma ChangesOther(s: Store, op: Op, now: int, raw: string)
    requires raw in s.minted && OpFresh(s, op)
    ensures OtherToken(ChangeOf(s, op, now), raw)
  {
  }

  /** Once ended, no row has the token. */
  lemma {:induction false} EndedRow(s: Store, c: Change, kind: Kind, id: string, email: string, raw: string,
                                    until: int, b: Account)
    requires WellFormed(s) && SingleUse(kind) && Offers(s, kind, id, email, raw, until)
    requires Ending(c, kind, id) && OtherToken(c, raw) && b in Changed(s.accounts, c)
    ensures PendingOf(b, kind).hash != Some(raw)
  {
    if c.Dropped? {
      DropKeeps(s.accounts, id);
      if PendingOf(b, kind).hash == Some(raw) {
        OnlyHolder(s, kind, id, email, raw, until, b);
      }
    } else {
      var next := Changed(s.accounts, c);
      var i :| 0 <= i < |next| && next[i] == b;
      if s.accounts[i].id != id && PendingOf(b, kind).hash == Some(raw) {
        OnlyHolder(s, kind, id, email, raw, until, s.accounts[i]);
      }
    }
  }

  lemma {:induction false} PurgedRow(s: Store, now: int, kind: Kind, id: string, email: string, raw: string, until: int,
                                     b: Account)
    requires WellFormed(s) && SingleUse(kind) && Offers(s, kind, id, email, raw, until) && until <= now
    requires b in Cleared(s.accounts, now)
    ensures PendingOf(b, kind).hash != Some(raw)
  {
    var next := Cleared(s.accounts, now);
    var i :| 0 <= i < |next| && next[i] == b;
    if PendingOf(b, kind).hash == Some(raw) {
      OnlyHolder(s, kind, id, email, raw, until, s.accounts[i]);
    }
  }

  /** A purge once its time is over. */
  predicate Over(e: Event, until: int) { e.Purge? && until <= e.now }

  lemma {:induction false} TokenStays(s: Store, e: Event, kind: Kind, id: string, email: string, raw: string,
                                      until: int)
    requires WellFormed(s) && SingleUse(kind) && Offers(s, kind, id, email, raw, until)
    requires !Ends(s, e, kind, id, raw) && !Over(e, until)
    ensures Offers(After(s, e), kind, id, email, raw, until)
  {
    match e
    case Do(op, now) =>
      StepChanges(s, op, now);
      EndingExactly(s, op, now, kind, id, email, raw, until);
      ChangeStays(s.accounts, ChangeOf(s, op, now), kind, id);
    case Purge(now) => ClearedRow(s.accounts, now, id);
  }

  lemma {:induction false} TokenSpent(s: Store, e: Event, kind: Kind, id: string, email: string, raw: string,
                                      until: int)
    requires WellFormed(s) && (e.Do? ==> OpFresh(s, e.op)) && SingleUse(kind) && Offers(s, kind, id, email, raw, until)
    requires Ends(s, e, kind, id, raw) || Over(e, until)
    ensures Spent(After(s, e), kind, raw)
  {
    HolderIs(s, kind, id, email, raw, until);
    AfterKeepsWellFormed(s, e);
    forall b | b in After(s, e).accounts ensures PendingOf(b, kind).hash != Some(raw) {
      match e
      case Do(op, now) =>
        StepChanges(s, op, now);
        EndingExactly(s, op, now, kind, id, email, raw, until);
        ChangesOther(s, op, now, raw);
        EndedRow(s, ChangeOf(s, op, now), kind, id, email, raw, until, b);
      case Purge(now) => PurgedRow(s, now, kind, id, email, raw, until, b);
    }
  }

  // ---- whole runs --------------------------------------------------------------------------------

  lemma {:induction false} SpentToTheEnd(s: Store, now: int, events: seq<Event>, kind: Kind, raw: string)
    requires WellFormed(s) && Orderly(s, now, events) && Spent(s, kind, raw)
    ensures Spent(Final(s, events), kind, raw)
    decreases |events|
  {
    if events != [] {
      SpentStays(s, events[0], kind, raw);
      AfterKeepsWellFormed(s, events[0]);
      SpentToTheEnd(After(s, events[0]), events[0].now, events[1..], kind, raw);
    }
  }

  /** After any run the token is still parked, unless an event ended it or it was purged late. */
  lemma {:induction false} TokenStored(s: Store, now: int, events: seq<Event>, kind: Kind, id: string, email: string,
                                       raw: string, until: int)
    requires WellFormed(s) && Orderly(s, now, events) && SingleUse(kind) && Offers(s, kind, id, email, raw, until)
    ensures Offers(Final(s, events), kind, id, email, raw, until) || Spent(Final(s, events), kind, raw)
    ensures EndedBy(s, events, kind, id, raw) ==> Spent(Final(s, events), kind, raw)
    ensures !EndedBy(s, events, kind, id, raw) && EndOf(now, events) < until
            ==> Offers(Final(s, events), kind, id, email, raw, until)
    decreases |events|
  {
    if events != [] {
      var e, rest := events[0], events[1..];
      AfterKeepsWellFormed(s, e);
      if Ends(s, e, kind, id, raw) || Over(e, until) {
        TokenSpent(s, e, kind, id, email, raw, until);
        SpentToTheEnd(After(s, e), e.now, rest, kind, raw);
        OrderlyEnds(After(s, e), e.now, rest);
      } else {
        TokenStays(s, e, kind, id, email, raw, until);
        TokenStored(After(s, e), e.now, rest, kind, id, email, raw, until);
      }
    }
  }

  /** What a confirmation after the run finds. */
  lemma {:induction false} Confirming(s: Store, kind: Kind, id: string, email: string, raw: string, until: int, op: Op,
                                      at: int)
    requires WellFormed(s) && SingleUse(kind) && (Offers(s, kind, id, email, raw, until) || Spent(s, kind, raw))
    requires Uses(op, kind, raw)
    ensures Step(s, op, at).1
            == if Offers(s, kind, id, email, raw, until) && at < until then Confirmed(id) else Nothing
  {
    if Offers(s, kind, id, email, raw, until) {
      HolderIs(s, kind, id, email, raw, until);
      RowFound(s.accounts, id);
    } else {
      SpentIsRefused(s, op, at, kind, raw);
    }
  }

  /** A token offered at some time is confirmed, after any later run, exactly until its time is
      over or an event of the run ended it. */
  lemma {:induction false} LifetimeExactly(s: Store, issued: int, later: seq<Event>, kind: Kind, id: string,
                                           email: string, raw: string, until: int, op: Op, at: int)
    requires WellFormed(s) && Orderly(s, issued, later) && EndOf(issued, later) <= at
    requires SingleUse(kind) && Offers(s, kind, id, email, raw, until)
    requires Uses(op, kind, raw)
    ensures Step(Final(s, later), op, at).1
            == if at < until && !EndedBy(s, later, kind, id, raw) then Confirmed(id) else Nothing
    ensures Step(Final(s, later), op, at).1 == Confirmed(id) ==> Offers(Final(s, later), kind, id, email, raw, until)
  {
    TokenStored(s, issued, later, kind, id, email, raw, until);
    RunKeepsWellFormed(s, issued, later);
    HolderIs(s, kind, id, email, raw, until);
    var end := Final(s, later);
    Confirming(end, kind, id, email, raw, until, op, at);
    if EndedBy(s, later, kind, id, raw) {
      SpentIsRefused(end, op, at, kind, raw);
    }
  }

  // ---- verification tokens --------------------------------------------------------------------------

  lemma {:induction false} VerifyOffered(s: Store, id: string, raw: string, issued: int)
    requires WellFormed(s) && OpFresh(s, IssueVerify(id, raw)) && AccountAt(s.accounts, id).Some?
    ensures var start := Step(s, IssueVerify(id, raw), issued).0;
            WellFormed(start) && Offers(start, VerifyKind, id, AccountAt(s.accounts, id).value.email, raw,
                                        issued + VERIFY_TTL)
  {
    StepKeepsWellFormed(s, IssueVerify(id, raw), issued);
    RowUpdated(s.accounts, id, OfferVerify(raw, issued + VERIFY_TTL));
  }

  /** A verification token confirms the account it was issued for, after any later run, exactly
      within a day and until it was used, another one was issued for the account or the account
      deleted; then that account is verified, and nothing happens to any other. */
  lemma {:induction false} VerifyTokenExactly(s: Store, id: string, raw: string, issued: int, later: seq<Event>,
                                              at: int)
    requires WellFormed(s) && OpFresh(s, IssueVerify(id, raw)) && AccountAt(s.accounts, id).Some?
    requires Orderly(Step(s, IssueVerify(id, raw), issued).0, issued, later) && EndOf(issued, later) <= at
    ensures var start := Step(s, IssueVerify(id, raw), issued).0;
            var end := Final(start, later);
            var (next, r) := Step(end, ConfirmVerify(raw), at);
            && r == (if at < issued + 24 * 3600 && !EndedBy(start, later, VerifyKind, id, raw) then Confirmed(id)
                     else Nothing)
            && (r == Confirmed(id) ==>
                  AccountAt(next.accounts, id).Some? && AccountAt(next.accounts, id).value.verified)
            && (r == Nothing ==> next == end)
            && forall other :: other != id ==> AccountAt(next.accounts, other) == AccountAt(end.accounts, other)
  {
    var start, email := Step(s, IssueVerify(id, raw), issued).0, AccountAt(s.accounts, id).value.email;
    var end := Final(start, later);
    VerifyOffered(s, id, raw, issued);
    LifetimeExactly(start, issued, later, VerifyKind, id, email, raw, issued + VERIFY_TTL, ConfirmVerify(raw), at);
    RunKeepsWellFormed(start, issued, later);
    RowUpdated(end.accounts, id, MarkVerified);
    if Step(end, ConfirmVerify(raw), at).1 == Confirmed(id) {
      HolderIs(end, VerifyKind, id, email, raw, issued + VERIFY_TTL);
    }
  }

  // ---- reset tokens ---------------------------------------------------------------------------------

  /** What a confirmed reset does, and a refused one. */
  lemma {:induction false} AfterReset(s: Store, id: string, email: string, raw: string, password: string, tried: string,
                                      until: int, at: int)
    requires WellFormed(s) && DistinctEmails(s.accounts)
    requires Step(s, ConfirmReset(raw, password), at).1 == Confirmed(id)
             ==> Offers(s, ResetKind, id, Norm(email), raw, until)
    requires Step(s, ConfirmReset(raw, password), at).1 in {Confirmed(id), Nothing}
    ensures var (next, r) := Step(s, ConfirmReset(raw, password), at);
            && (r == Confirmed(id) ==>
                  Step(next, Authenticate(email, tried), at).1
                  == if tried == password then Resolve(s.accounts, id) else Nothing)
            && (r == Nothing ==> next == s)
            && forall other :: other != id ==> AccountAt(next.accounts, other) == AccountAt(s.accounts, other)
  {
    RowUpdated(s.accounts, id, SetPassword(password));
    if Step(s, ConfirmReset(raw, password), at).1 == Confirmed(id) {
      HolderIs(s, ResetKind, id, Norm(email), raw, until);
      NewPasswordSignsIn(s, Step(s, ConfirmReset(raw, password), at).0, id, password, tried, email, at);
    }
  }

  /** A reset token answered for an address sets, after any later run, that account's password and no
      other: exactly within the hour and until it was used, another one was issued for the account,
      its password changed or the account deleted. */
  lemma {:induction false} ResetTokenExactly(s: Store, email: string, raw: string, password: string, tried: string,
                                             issued: int, later: seq<Event>, at: int)
    requires WellFormed(s) && DistinctEmails(s.accounts) && OpFresh(s, IssueReset(email, raw))
    requires Step(s, IssueReset(email, raw), issued).1 == Issued
    requires Orderly(Step(s, IssueReset(email, raw), issued).0, issued, later) && EndOf(issued, later) <= at
    ensures AccountByEmail(s.accounts, Norm(email)).Some?
    ensures var owner := AccountByEmail(s.accounts, Norm(email)).value;
            var start := Step(s, IssueReset(email, raw), issued).0;
            var end := Final(start, later);
            var (next, r) := Step(end, ConfirmReset(raw, password), at);
            && r == (if at < issued + 3600 && !EndedBy(start, later, ResetKind, owner.id, raw) then Confirmed(owner.id)
                     else Nothing)
            && (r == Confirmed(owner.id) ==>
                  Step(next, Authenticate(email, tried), at).1
                  == if tried == password then Resolve(end.accounts, owner.id) else Nothing)
            && (r == Nothing ==> next == end)
            && forall other :: other != owner.id ==> AccountAt(next.accounts, other) == AccountAt(end.accounts, other)
  {
    var owner := AccountByEmail(s.accounts, Norm(email)).value;
    var start, until := Step(s, IssueReset(email, raw), issued).0, issued + RESET_TTL;
    var end := Final(start, later);
    ResetOffered(s, email, raw, issued);
    StepKeepsWellFormed(s, IssueReset(email, raw), issued);
    LifetimeExactly(start, issued, later, ResetKind, owner.id, Norm(email), raw, until, ConfirmReset(raw, password),
        at);
    RunKeepsWellFormed(start, issued, later);
    RunKeepsEmails(start, later);
    AfterReset(end, owner.id, email, raw, password, tried, until, at);
  }
}
