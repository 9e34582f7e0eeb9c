/** The judgements on a build, its button, its page copy and its repainting, told by the fields of
    the status record alone (frontend/src/buildProgress.ts:50-121, 417-443, 550-801, 856-1046). */
module BuildCases {
  import opened BuildHonesty
  import opened BuildRecord
  import opened Common

  // ---- numbers --------------------------------------------------------------------------------

  /** A field that is a number and not negative. */
  function Given(raw: Option<real>): set<real> { if raw.Some? && raw.value >= 0.0 then {raw.value} else {} }

  function Listed(n: Option<nat>): set<real> { if n.Some? then {n.value as real} else {} }

  /** The counts of authored files that the page goes by: the agent's artifacts, the coding agent's
      ids and the action handlers, or what the agent has written when there is none of these. */
  function Counts(a: Authorship): set<real> {
    var ids := if a.receiptIds.Some? then Listed(a.receiptIds) else Listed(a.authoredIds);
    var known := Listed(a.agentArtifacts) + ids + Given(a.actionPy);
    if known == {} then Given(a.agentWritten) else known
  }

  predicate Largest(n: real, among: set<real>) { n in among && forall x :: x in among ==> x <= n }

  /** The count of authored files is the largest one there is. */
  lemma AuthoredExactly(a: Authorship, n: real)
    ensures AuthoredCount(a) == Some(n) <==> Largest(n, Counts(a))
  {
    CliExactly(a);
    WrittenLast(a);
    if AuthoredCount(a).Some? {
      AuthoredIsLargest(a);
      LargestIsOne(n, AuthoredCount(a).value, Counts(a));
    } else {
      assert Counts(a) == {};
    }
  }

  lemma LargestIsOne(m: real, n: real, among: set<real>)
    requires Largest(n, among)
    ensures Largest(m, among) <==> m == n
  {
  }

  lemma CliExactly(a: Authorship)
    ensures (if a.receiptIds.Some? then Listed(a.receiptIds) else Listed(a.authoredIds))
            == if CliCount(a).Some? then {CliCount(a).value} else {}
    ensures CliCount(a).Some? ==> CliCount(a).value >= 0.0
  {
  }

  lemma WrittenLast(a: Authorship)
    ensures a.agentArtifacts.None? && CliCount(a).None? && Count(a.actionPy).None?
            ==> Counts(a) == Given(a.agentWritten)
  {
    CliExactly(a);
  }

  lemma AuthoredIsLargest(a: Authorship)
    requires AuthoredCount(a).Some?
    ensures Largest(AuthoredCount(a).value, Counts(a))
  {
    CliExactly(a);
    WrittenLast(a);
  }

  /** How many authored files were asked for. */
  predicate Asked(b: Build, x: real) {
    || x in Given(b.facts.authorship.required)
    || (Given(b.facts.authorship.required) == {} && x in Given(b.facts.required))
  }

  /** The floor is what was asked for, but no less than one and no more than five; five when nothing
      was asked for. */
  lemma NeedExactly(b: Build)
    ensures forall x :: Asked(b, x) && x > 0.0
                        ==> AuthoredNeed(b) == if x < 1.0 then 1.0 else if x > 5.0 then 5.0 else x
    ensures (forall x :: Asked(b, x) ==> x == 0.0) ==> AuthoredNeed(b) == 5.0
  {
    if AuthoredNeed(b) != 5.0 {
      var n := if Count(b.facts.authorship.required).Some? then Count(b.facts.authorship.required)
               else Count(b.facts.required);
      assert n.Some? && Asked(b, n.value);
    }
  }

  /** A build has authored too little: it is not graded a full pilot, something is counted, and all
      that is counted is below the floor. */
  predicate TooLittle(b: Build) {
    var counts := Counts(b.facts.authorship);
    !b.fullPilot && counts != {} && forall n :: n in counts ==> n < AuthoredNeed(b)
  }

  lemma FloorExactly(b: Build)
    ensures IsBelowFloor(b) <==> TooLittle(b)
  {
    var a := b.facts.authorship;
    if AuthoredCount(a).Some? {
      AuthoredExactly(a, AuthoredCount(a).value);
    } else {
      CliExactly(a);
      WrittenLast(a);
      assert Counts(a) == {};
    }
  }

  /** Hardly anything was written by the agent: one file at most, no more than the templated ones,
      or at most half of all. */
  predicate HardlyWritten(a: Authorship) {
    && a.agentWritten.Some? && a.agentWritten.value >= 0.0
    && (|| a.agentWritten.value <= 1.0
        || (a.templated.Some? && a.agentWritten.value <= a.templated.value)
        || (a.artifacts.Some? && a.artifacts.value > 0.0 && a.agentWritten.value <= a.artifacts.value / 2.0))
  }

  lemma ThinExactly(a: Authorship)
    ensures IsThinTemplated(a) <==> HardlyWritten(a)
  {
  }

  /** The score shows what passed, or nothing, out of at least twelve. */
  lemma ScoreExactly(b: Build)
    ensures var (passed, total) := AcceptanceScore(b);
            && (b.facts.acceptance.None? ==> passed == 0.0 && total == 12.0)
            && (b.facts.acceptance.Some? ==>
                  var a := b.facts.acceptance.value;
                  && (if a.passed.Some? && a.passed.value > 0.0 then a.passed == Some(passed) else passed == 0.0)
                  && (if a.total.Some? && a.total.value > 12.0 then a.total == Some(total) else total == 12.0))
  {
  }

  /** Acceptance passed in full, in terms of the raw record. */
  predicate Accepted(b: Build) {
    && b.facts.acceptance.Some?
    && var a := b.facts.acceptance.value;
       a.ok && !a.missing && a.passed.Some?
       && (if a.total.Some? && a.total.value >= 12.0 then a.passed == a.total else a.passed.value == 12.0)
  }

  lemma AcceptedExactly(b: Build)
    ensures IsAcceptanceKk(b) <==> Accepted(b)
  {
    if b.facts.acceptance.Some? {
      KkExactly(b, b.facts.acceptance.value);
    }
  }

  // ---- conditions --------------------------------------------------------------------------------

  /** The ledger, the suite or the outcome speaks against the build. */
  predicate Red(b: Build) { b.product == Verdict.Red || b.outcomeBad }

  predicate Garbled(b: Build) { b.detail.Some? && b.detail.value.unreadable }

  predicate CoderFailed(b: Build) { b.facts.cliElsewhere || (b.detail.Some? && b.detail.value.cliFailed) }

  predicate Ended(b: Build) { b.state == Failed || b.state == Stalled }

  predicate Early(b: Build) { b.state == Building || b.state == NotStarted }

  /** The record claims a pilot. */
  predicate Pilot(b: Build) { !Red(b) && !Ended(b) && (b.pilotReady || (b.product == Pass && b.store == Pass)) }

  lemma PilotExactly(b: Build)
    ensures ClaimsStoreGreenPilot(b) <==> Pilot(b)
  {
  }

  /** Nothing speaks against the build but that its acceptance is short. */
  predicate AcceptanceAlone(b: Build) {
    b.state == Succeeded && !Garbled(b) && Pilot(b) && !TooLittle(b) && !Accepted(b)
  }

  lemma PendingExactly(b: Build)
    ensures IsAcceptancePending(b) <==> AcceptanceAlone(b)
  {
    FloorExactly(b);
    AcceptedExactly(b);
    PilotExactly(b);
  }

  /** The coding agent failed, or the record claims a scaffold, and it is no ready pilot. */
  predicate Doubtful(b: Build) {
    !(b.state == Succeeded && b.pilotReady) && (CoderFailed(b) || (b.claim == ClaimsScaffold && !b.pilotReady))
  }

  /** What refuses the export. */
  predicate Refused(b: Build) {
    && !Early(b)
    && (|| Garbled(b) || b.state == Failed || Red(b) || (TooLittle(b) && Pilot(b)) || (b.pilotReady && !Accepted(b))
        || Doubtful(b))
  }

  lemma RefusedExactly(b: Build)
    ensures ShouldRefuseExport(b) <==> Refused(b)
  {
    FloorExactly(b);
    AcceptedExactly(b);
    PilotExactly(b);
  }

  // ---- grade, button and copy ------------------------------------------------------------------------

  /** Founding is demoted. */
  predicate Unfounded(b: Build) {
    || CoderFailed(b) || b.facts.llmFallthrough || HardlyWritten(b.facts.authorship)
    || b.facts.authorship.agentWritten.None? || b.facts.authorship.agentWritten.value < 0.0
  }

  predicate FullMarks(b: Build) { b.pilotReady && !Red(b) && !Ended(b) && !TooLittle(b) && Accepted(b) }

  /** The grade on the glass: founding and Store-green for full marks, and otherwise Code-green for
      a build that succeeded, unless it is red or claims no more than a scaffold itself. */
  lemma LevelExactly(b: Build)
    ensures var l := HonestLevel(b);
            var claimed := b.claim != ClaimsStoreGreen && (b.foundingReady || b.claim == ClaimsFounding);
            var founding := claimed && !Unfounded(b);
            && (l == Founding <==> FullMarks(b) && founding)
            && (l == StoreGreen <==> FullMarks(b) && !founding)
            && (l == CodeGreen <==>
                  && !FullMarks(b) && !Red(b) && !Ended(b)
                  && if b.pilotReady || (TooLittle(b) && Pilot(b)) then b.state == Succeeded
                     else if b.claim == ClaimsCodeGreen then true
                     else b.state == Succeeded && b.claim != ClaimsScaffold)
            && (l == NoLevel <==>
                  && !Red(b) && !Ended(b) && b.state != Succeeded && !b.pilotReady
                  && !(TooLittle(b) && Pilot(b)) && (b.claim == NoClaim || b.claim == OtherClaim))
  {
    FloorExactly(b);
    AcceptedExactly(b);
    PilotExactly(b);
    ThinExactly(b.facts.authorship);
  }

  lemma ZipExactly(b: Build)
    ensures IsPilotZipReady(b) <==> b.state == Succeeded && FullMarks(b)
  {
    LevelTestIsRedundant(b);
    FloorExactly(b);
    AcceptedExactly(b);
  }

  predicate Sick(b: Build) { Garbled(b) || Ended(b) || Red(b) }

  /** Acceptance is all that is short, or is short of what the record says is ready. */
  predicate Short(b: Build) { AcceptanceAlone(b) || (b.pilotReady && !Accepted(b)) }

  /** The button, one by one. */
  lemma ButtonExactly(b: Build)
    ensures var button, thin := ExportAffordance(Some(b)), TooLittle(b) && Pilot(b);
            && (button == Gold <==> !Garbled(b) && b.state == Succeeded && FullMarks(b))
            && (button.BelowFloor? <==> !Sick(b) && !Early(b) && thin)
            && (button.BelowFloor? ==> button.need == AuthoredNeed(b))
            && (button.AcceptanceShort? <==> !Sick(b) && !Early(b) && !thin && Short(b))
            && (button.AcceptanceShort? ==> button.score == AcceptanceScore(b))
            && (button == AsIs <==> Sick(b) || (!Early(b) && !thin && !Short(b) && Doubtful(b)))
            && (button == Prototype <==>
                  !Sick(b) && b.state == Succeeded && !b.pilotReady && !thin && !Short(b) && !Doubtful(b))
            && (button == InProgress <==>
                  !Sick(b) && (Early(b) || (b.state != Succeeded && !thin && !Short(b) && !Doubtful(b))))
  {
    FloorExactly(b);
    AcceptedExactly(b);
    PilotExactly(b);
    PendingExactly(b);
    RefusedExactly(b);
    ZipExactly(b);
  }

  /** The copy, one by one. */
  lemma CopyExactly(b: Build)
    ensures var copy, thin := PlatformsLeadCopy(Some(b), true), TooLittle(b) && Pilot(b);
            && (copy == LedgerUnreadable <==> Garbled(b))
            && (copy.AcceptanceNotMet? <==> AcceptanceAlone(b))
            && (copy.AcceptanceNotMet? ==> copy.score == AcceptanceScore(b))
            && (copy == FloorRefused <==> !Garbled(b) && thin)
            && (copy == GatesFailed <==> !Garbled(b) && !AcceptanceAlone(b) && !thin && Refused(b))
            && (copy == Writing <==> !Garbled(b) && !thin && !Refused(b) && (Early(b) || b.state == Unknown))
            && (copy == RunStalled <==> !Garbled(b) && !thin && !Refused(b) && b.state == Stalled)
            && (copy == PrototypeOnly <==>
                  !Garbled(b) && !AcceptanceAlone(b) && !thin && !Refused(b) && b.state == Succeeded && !b.pilotReady)
            && (copy == Invite <==>
                  !Garbled(b) && !thin && !Refused(b)
                  && (b.state == Waiting || (b.state == Succeeded && FullMarks(b))))
  {
    FloorExactly(b);
    AcceptedExactly(b);
    PilotExactly(b);
    PendingExactly(b);
    RefusedExactly(b);
    ZipExactly(b);
  }

  lemma NoBuildYet(build: Option<Build>)
    ensures PlatformsLeadCopy(build, false) == NoGeneration
    ensures PlatformsLeadCopy(None, true) == Writing && ExportAffordance(None) == InProgress
  {
  }

  // ---- repainting ---------------------------------------------------------------------------------------

  /** A refusal for thin authorship that the counts no longer bear out. */
  predicate LookedAtAgain(b: Build) {
    && (b.facts.thinElsewhere || (b.detail.Some? && b.detail.value.thin))
    && !Early(b) && !TooLittle(b) && Counts(b.facts.authorship) != {} && !(b.state == Succeeded && b.pilotReady)
  }

  /** It becomes a success: of a pilot, all green and ready, or of a code cycle, neither. What it said
      stays when it said CODE PASS; nothing else is touched. */
  lemma SecondLook(b: Build)
    ensures !LookedAtAgain(b) ==> Reevaluate(b) == b
    ensures LookedAtAgain(b) ==>
              var r := Reevaluate(b);
              && r.state == Succeeded && !r.outcomeBad && !r.foundingReady && r.facts == b.facts && r.live == b.live
              && (if b.facts.pilotCycle
                  then r.pilotReady && r.fullPilot && r.claim == ClaimsStoreGreen
                       && r.product == Pass && r.store == Pass
                  else !r.pilotReady && !r.fullPilot && r.claim == ClaimsCodeGreen
                       && r.product == OtherVerdict && r.store == OtherVerdict)
              && (if b.detail.Some? && b.detail.value.codePass then r.detail == b.detail
                  else r.detail == Some(Words(false, true, false, false)))
  {
    FloorExactly(b);
    var a := b.facts.authorship;
    if AuthoredCount(a).Some? {
      AuthoredExactly(a, AuthoredCount(a).value);
    } else {
      CliExactly(a);
      WrittenLast(a);
      assert Counts(a) == {};
    }
  }

  /** The first text there is: the record's, its receipt's, or that of what failed. */
  function Explanation(b: Build): Words {
    if b.detail.Some? then b.detail.value
    else if b.facts.receiptText.Some? then b.facts.receiptText.value
    else if b.product == Verdict.Red then Words(false, false, false, false)
    else if b.outcomeBad then b.facts.outcomeText
    else b.facts.failureText
  }

  /** What is refused is shown as failed, with its reason, as a scaffold and not ready; only a
      success below the floor stays one, as Code-green; everything else stays as it is. */
  lemma DemotedExactly(b: Build)
    ensures var d := Demote(b);
            var thin := b.state == Succeeded && TooLittle(b) && Pilot(b);
            var bad := !thin && Refused(b) && !(b.state == Succeeded && b.pilotReady && !Red(b));
            && d.facts == b.facts && d.live == b.live && d.product == b.product && d.store == b.store
            && d.outcomeBad == b.outcomeBad
            && (!thin && !bad ==> d == b)
            && (thin ==> d.state == Succeeded && !d.fullPilot && d.claim == ClaimsCodeGreen && d.detail == b.detail)
            && (thin || bad ==> !d.pilotReady && !d.foundingReady)
            && (bad ==> d.state == (if Ended(b) then b.state else Failed) && d.fullPilot == b.fullPilot)
            && (bad && !Ended(b) ==> d.claim == ClaimsScaffold && d.detail == Some(Explanation(b)))
            && (bad && Ended(b) ==>
                  && d.detail == b.detail
                  && d.claim == if b.pilotReady || b.foundingReady then ClaimsScaffold else b.claim)
  {
    FloorExactly(b);
    PilotExactly(b);
    RefusedExactly(b);
  }

  /** Only a run of unknown state whose ledger cannot be read is marked failed. */
  lemma LedgerHonestyExactly(b: Build)
    ensures var l := WithLedgerHonesty(b);
            if b.state == Unknown && Garbled(b) then l == b.(state := Failed, pilotReady := false) else l == b
  {
  }
}
