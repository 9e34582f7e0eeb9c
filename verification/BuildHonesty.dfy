/** The export button, the page copy and the grade agree
    (frontend/src/buildProgress.ts:70-154, 417-478, 598-801, 856-1046). */
module BuildHonesty {
  import opened Common
  import opened BuildRecord

  predicate PilotLevel(level: Level) { level == StoreGreen || level == Founding }

  /** The glass reads Store-green or founding exactly when every authoritative field allows it. */
  lemma PilotLevelExactly(b: Build)
    ensures PilotLevel(HonestLevel(b))
            <==> b.pilotReady && !ProductSuiteFailed(b) && !b.outcomeBad && b.state != Failed && b.state != Stalled
                 && !IsBelowFloor(b) && IsAcceptanceKk(b)
  {
  }

  /** ... and founding exactly when it is also claimed, not as Store-green, and nothing demotes it. */
  lemma FoundingExactly(b: Build)
    ensures HonestLevel(b) == Founding
            <==> PilotLevel(HonestLevel(b)) && !b.claim.ClaimsStoreGreen?
                 && (b.foundingReady || b.claim.ClaimsFounding?)
                 && !CliFailed(b) && !b.facts.llmFallthrough && !IsThinTemplated(b.facts.authorship)
                 && Count(b.facts.authorship.agentWritten).Some?
  {
  }

  /** The level test inside `isPilotZipReady` follows from its other conditions. */
  lemma LevelTestIsRedundant(b: Build)
    ensures IsPilotZipReady(b)
            <==> b.state == Succeeded && b.pilotReady && !ProductSuiteFailed(b) && !b.outcomeBad
                 && !IsBelowFloor(b) && IsAcceptanceKk(b)
  {
    PilotLevelExactly(b);
  }

  /** The gold button, exactly: a pilot zip ready, from a ledger that could be read. */
  lemma GoldExactly(build: Option<Build>)
    ensures ExportAffordance(build) == Gold <==> build.Some? && IsPilotZipReady(build.value) && !Unreadable(build.value)
  {
    if build.Some? {
      LevelTestIsRedundant(build.value);
    }
  }

  /** k/k in terms of the raw record: a total that is missing or under twelve counts as
      twelve, so it is `passed` alone that must then be exactly twelve. */
  lemma KkExactly(b: Build, a: Acceptance)
    requires b.facts.acceptance == Some(a)
    ensures IsAcceptanceKk(b)
            <==> a.ok && !a.missing && a.passed.Some?
                 && (if a.total.Some? && a.total.value >= 12.0 then a.passed == a.total else a.passed.value == 12.0)
  {
  }

  /** What a gold button vouches for. */
  lemma GoldVouches(b: Build)
    requires ExportAffordance(Some(b)) == Gold
    ensures var (passed, total) := AcceptanceScore(b); passed == total >= ACCEPTANCE_REQUIRED
    ensures !b.fullPilot && AuthoredCount(b.facts.authorship).Some?
            ==> AuthoredCount(b.facts.authorship).value >= AuthoredNeed(b) && 1.0 <= AuthoredNeed(b) <= MIN_AUTHORED
    ensures PilotLevel(HonestLevel(b))
  {
    GoldExactly(Some(b));
  }

  /** With a generation on the page, the copy invites a download exactly when the button is
      gold, or the state is `waiting` and nothing refuses the export. */
  lemma InviteExactly(build: Option<Build>)
    ensures PlatformsLeadCopy(build, true) == Invite
            <==> ExportAffordance(build) == Gold
                 || (build.Some? && build.value.state == Waiting && !ShouldRefuseExport(build.value))
  {
    GoldExactly(build);
    if build.Some? {
      LevelTestIsRedundant(build.value);
    }
  }

  /** So copy and button agree except on a `waiting` build that nothing refuses. */
  lemma CopyAgreesExactly(build: Option<Build>)
    ensures (PlatformsLeadCopy(build, true) == Invite <==> ExportAffordance(build) == Gold)
            <==> build.None? || build.value.state != Waiting || ShouldRefuseExport(build.value)
  {
    InviteExactly(build);
    GoldExactly(build);
  }

  /** A build on which they disagree: the page invites a download and the button says Building. */
  lemma WaitingMisleads() returns (b: Build)
    ensures b.state == Waiting && PlatformsLeadCopy(Some(b), true) == Invite && ExportAffordance(Some(b)) == InProgress
  {
    var nobody := Authorship(None, None, None, None, None, None, None, None);
    var unseen := Observation(None, None, None, None, None, None, None, false);
    b := Build(Waiting, false, NoClaim, false, false, OtherVerdict, OtherVerdict, false, None,
               Facts(None, nobody, None, false, false, false, true, None, PLAIN, PLAIN),
               Live(unseen, false, false, None));
  }

  /** An open button is never beside copy that says the gates failed, unless it is the as-is one. */
  lemma FailureCopyAgrees(b: Build)
    ensures PlatformsLeadCopy(Some(b), true) in {GatesFailed, LedgerUnreadable, RunStalled}
            ==> ExportAffordance(Some(b)) == AsIs || ExportAffordance(Some(b)).AcceptanceShort?
    ensures ExportAffordance(Some(b)).BelowFloor? ==> PlatformsLeadCopy(Some(b), true) == FloorRefused
    ensures PlatformsLeadCopy(Some(b), true).AcceptanceNotMet?
            ==> ExportAffordance(Some(b)) == AcceptanceShort(PlatformsLeadCopy(Some(b), true).score)
  {
  }

  // ---- repainting -------------------------------------------------------------------------------

  /** All that a gold button depends on. */
  predicate GoldFields(b: Build) {
    && b.state == Succeeded && b.pilotReady && !ProductSuiteFailed(b) && !b.outcomeBad
    && !IsBelowFloor(b) && IsAcceptanceKk(b) && !Unreadable(b)
  }

  lemma GoldIsFields(b: Build)
    ensures ExportAffordance(Some(b)) == Gold <==> GoldFields(b)
  {
    GoldExactly(Some(b));
    LevelTestIsRedundant(b);
  }

  lemma DemotionUnreadies(b: Build, thin: bool, refused: bool)
    ensures DemoteIf(b, thin, refused) == b || !DemoteIf(b, thin, refused).pilotReady
  {
  }

  lemma GoldIsNotDemoted(b: Build)
    requires b.state == Succeeded && b.pilotReady && !b.outcomeBad && !ProductSuiteFailed(b) && !IsBelowFloor(b)
    ensures Demote(b) == b
  {
    assert IsAuthoritativePilotReady(b);
  }

  lemma DemoteKeepsFields(b: Build)
    ensures GoldFields(Demote(b)) <==> GoldFields(b)
  {
    DemotionUnreadies(b, IsBelowFloor(b) && ClaimsStoreGreenPilot(b),
                      !IsAuthoritativePilotReady(b) && ShouldRefuseExport(b));
    if GoldFields(b) {
      GoldIsNotDemoted(b);
    }
  }

  /** Repainting for honesty neither strips a gold button nor makes one. Only the second
      look at a sticky authorship refusal can change whether there is one. */
  lemma RepaintKeepsGold(b: Build)
    ensures ExportAffordance(Some(WithExportHonesty(b))) == Gold <==> ExportAffordance(Some(Reevaluate(b))) == Gold
    ensures !StickyThin(b) ==> Reevaluate(b) == b
  {
    GoldIsFields(Reevaluate(b));
    GoldIsFields(WithExportHonesty(b));
    DemoteKeepsFields(Reevaluate(b));
  }

  /** A refusal looked at again turns gold exactly when it was a pilot cycle whose
      acceptance is k/k and whose ledger reads. */
  lemma SecondLookExactly(b: Build)
    requires Reevaluate(b) != b
    ensures ExportAffordance(Some(Reevaluate(b))) == Gold
            <==> b.facts.pilotCycle && IsAcceptanceKk(b) && !(Unreadable(b) && SaysCodePass(b))
    ensures ExportAffordance(Some(Reevaluate(b))) == Gold
            ==> AuthoredCount(b.facts.authorship).Some?
                && (b.fullPilot || AuthoredCount(b.facts.authorship).value >= AuthoredNeed(b))
  {
    GoldExactly(Some(Reevaluate(b)));
    LevelTestIsRedundant(Reevaluate(b));
  }

  /** Marking a crashed run failed takes no gold button away. */
  lemma LedgerHonestyKeepsGold(b: Build)
    ensures ExportAffordance(Some(WithLedgerHonesty(b))) == Gold <==> ExportAffordance(Some(b)) == Gold
  {
    GoldExactly(Some(b));
    GoldExactly(Some(WithLedgerHonesty(b)));
  }
}
