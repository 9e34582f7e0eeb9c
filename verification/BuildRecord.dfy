/** A build's status record as the page reads it, and the judgements on it
    (frontend/src/buildProgress.ts:50-121, 417-443, 550-739). Each text test is a field
    holding its answer; numbers are reals, absent when not finite. */
module BuildRecord {
  import opened Common

  datatype State = NotStarted | Unknown | Building | Succeeded | Failed | Stalled | Waiting

  /** `level_grade.level`, upper-cased. */
  datatype Claim = NoClaim | ClaimsScaffold | ClaimsCodeGreen | ClaimsStoreGreen | ClaimsFounding | OtherClaim

  datatype Level = NoLevel | Scaffold | CodeGreen | StoreGreen | Founding

  datatype Verdict = Pass | Red | OtherVerdict

  datatype Acceptance = Acceptance(missing: bool, ok: bool, passed: Option<real>, total: Option<real>)

  /** `receiptIds`, `authoredIds` and `agentArtifacts` count the entries the page counts. */
  datatype Authorship = Authorship(receiptIds: Option<nat>, authoredIds: Option<nat>, agentArtifacts: Option<nat>,
                                   actionPy: Option<real>, agentWritten: Option<real>, templated: Option<real>,
                                   artifacts: Option<real>, required: Option<real>)

  datatype Progress = Progress(stage: string, total: int, done: int)

  datatype EventTime = EventTime(text: string, parsedMs: Option<real>)

  /** What a poll says of the last ledger event, and what the page stamped on it. */
  datatype Observation = Observation(eventAt: Option<EventTime>, event: Option<string>, activity: Option<string>,
                                     eventAge: Option<real>, progress: Option<Progress>,
                                     observedMs: Option<real>, baseAge: Option<real>, waveReset: bool)

  /** What the page looks for in a text: an unreadable ledger, "CODE PASS", a failed coding
      agent, a refusal for thin authorship. */
  datatype Words = Words(unreadable: bool, codePass: bool, cliFailed: bool, thin: bool)

  /** What no repainting touches. `cliElsewhere` and `thinElsewhere` are the tests on all the
      texts but `detail`; the last three are the texts a refusal may take its detail from. */
  datatype Facts = Facts(acceptance: Option<Acceptance>, authorship: Authorship, required: Option<real>,
                         cliElsewhere: bool, llmFallthrough: bool, thinElsewhere: bool, pilotCycle: bool,
                         receiptText: Option<Words>, outcomeText: Words, failureText: Words)

  datatype Live = Live(seen: Observation, stale: bool, modelCall: bool, deadline: Option<real>)

  datatype Build = Build(state: State, pilotReady: bool, claim: Claim, foundingReady: bool, fullPilot: bool,
                         product: Verdict, store: Verdict, outcomeBad: bool, detail: Option<Words>,
                         facts: Facts, live: Live)

  // ---- texts -------------------------------------------------------------------------------

  /** `isUnreadableLedger`. */
  predicate Unreadable(b: Build) { b.detail.Some? && b.detail.value.unreadable }

  predicate SaysCodePass(b: Build) { b.detail.Some? && b.detail.value.codePass }

  /** `isCoderCliFailed`. */
  predicate CliFailed(b: Build) { b.facts.cliElsewhere || (b.detail.Some? && b.detail.value.cliFailed) }

  /** `isStickyThinAuthorshipRefuse`. */
  predicate StickyThin(b: Build) { b.facts.thinElsewhere || (b.detail.Some? && b.detail.value.thin) }

  // ---- acceptance --------------------------------------------------------------------------

  const ACCEPTANCE_REQUIRED := 12.0

  function AcceptanceScore(b: Build): (real, real) {
    match b.facts.acceptance
    case None => (0.0, ACCEPTANCE_REQUIRED)
    case Some(a) =>
      (if a.passed.Some? && a.passed.value >= 0.0 then a.passed.value else 0.0,
       if a.total.Some? && a.total.value >= ACCEPTANCE_REQUIRED then a.total.value else ACCEPTANCE_REQUIRED)
  }

  predicate IsAcceptanceKk(b: Build) {
    var (passed, total) := AcceptanceScore(b);
    b.facts.acceptance.Some? && !b.facts.acceptance.value.missing && b.facts.acceptance.value.ok
    && passed >= ACCEPTANCE_REQUIRED && passed == total
  }

  // ---- the authorship floor -----------------------------------------------------------------

  const MIN_AUTHORED := 5.0

  function Max(x: real, y: real): real { if x < y then y else x }

  function Min(x: real, y: real): real { if x < y then x else y }

  /** `authorshipCount`. */
  function Count(raw: Option<real>): Option<real> { if raw.Some? && raw.value >= 0.0 then raw else None }

  function OrZero(n: Option<real>): real { if n.Some? then n.value else 0.0 }

  function CliCount(a: Authorship): Option<real> {
    if a.receiptIds.Some? then Some(a.receiptIds.value as real)
    else if a.authoredIds.Some? then Some(a.authoredIds.value as real)
    else None
  }

  /** `fullPilotAuthorshipCount`. */
  function AuthoredCount(a: Authorship): Option<real> {
    var cli, py, written := CliCount(a), Count(a.actionPy), Count(a.agentWritten);
    if a.agentArtifacts.Some? then Some(Max(a.agentArtifacts.value as real, Max(OrZero(cli), OrZero(py))))
    else if py.Some? || cli.Some? then Some(Max(OrZero(py), OrZero(cli)))
    else if written.Some? then Some(Max(written.value, OrZero(cli)))
    else cli
  }

  /** `fullPilotAuthorshipNeed`. */
  function AuthoredNeed(b: Build): real {
    var n := if Count(b.facts.authorship.required).Some? then Count(b.facts.authorship.required)
             else Count(b.facts.required);
    if n.None? || n.value <= 0.0 then MIN_AUTHORED else Min(MIN_AUTHORED, Max(1.0, n.value))
  }

  predicate IsBelowFloor(b: Build) {
    !b.fullPilot && AuthoredCount(b.facts.authorship).Some? && AuthoredCount(b.facts.authorship).value < AuthoredNeed(b)
  }

  predicate IsThinTemplated(a: Authorship) {
    var written, templated, artifacts := Count(a.agentWritten), Count(a.templated), Count(a.artifacts);
    written.Some?
    && (|| written.value <= 1.0
        || (templated.Some? && templated.value >= written.value)
        || (artifacts.Some? && artifacts.value > 0.0 && written.value * 2.0 <= artifacts.value))
  }

  // ---- judgements -----------------------------------------------------------------------------

  predicate ProductSuiteFailed(b: Build) { b.product.Red? }

  predicate ClaimsStoreGreenPilot(b: Build) {
    && !ProductSuiteFailed(b) && !b.outcomeBad && b.state != Failed && b.state != Stalled
    && (b.pilotReady || (b.product.Pass? && b.store.Pass?))
  }

  predicate ShouldDemoteFounding(b: Build) {
    || CliFailed(b)
    || b.facts.llmFallthrough
    || IsThinTemplated(b.facts.authorship)
    || ((b.foundingReady || b.claim.ClaimsFounding?) && Count(b.facts.authorship.agentWritten).None?)
  }

  function CodeGreenIfDone(b: Build): Level { if b.state == Succeeded then CodeGreen else Scaffold }

  function HonestLevel(b: Build): Level {
    if ProductSuiteFailed(b) || b.outcomeBad || b.state == Failed || b.state == Stalled then Scaffold
    else if IsBelowFloor(b) && ClaimsStoreGreenPilot(b) then CodeGreenIfDone(b)
    else if b.pilotReady && !IsAcceptanceKk(b) then CodeGreenIfDone(b)
    else if !b.pilotReady then
      match b.claim
      case ClaimsStoreGreen => CodeGreenIfDone(b)
      case ClaimsFounding => CodeGreenIfDone(b)
      case ClaimsScaffold => Scaffold
      case ClaimsCodeGreen => CodeGreen
      case _ => if b.state == Succeeded then CodeGreen else NoLevel
    else if b.claim.ClaimsStoreGreen? then StoreGreen
    else if (b.foundingReady || b.claim.ClaimsFounding?) && !ShouldDemoteFounding(b) then Founding
    else StoreGreen
  }

  predicate IsPilotZipReady(b: Build) {
    && b.state == Succeeded && b.pilotReady
    && !ProductSuiteFailed(b) && !b.outcomeBad
    && !IsBelowFloor(b)
    && IsAcceptanceKk(b)
    && (HonestLevel(b) == StoreGreen || HonestLevel(b) == Founding)
  }

  predicate IsAcceptancePending(b: Build) {
    && b.state == Succeeded
    && !Unreadable(b) && !ProductSuiteFailed(b) && !b.outcomeBad
    && !(IsBelowFloor(b) && ClaimsStoreGreenPilot(b))
    && !IsAcceptanceKk(b)
    && ClaimsStoreGreenPilot(b)
  }

  predicate IsAuthoritativePilotReady(b: Build) {
    b.state == Succeeded && b.pilotReady && !b.outcomeBad && !ProductSuiteFailed(b)
  }

  predicate ShouldRefuseExport(b: Build) {
    if b.state == Building || b.state == NotStarted then false
    else if Unreadable(b) || b.state == Failed || ProductSuiteFailed(b) || b.outcomeBad then true
    else if IsBelowFloor(b) && ClaimsStoreGreenPilot(b) then true
    else if b.pilotReady && !IsAcceptanceKk(b) then true
    else if IsAuthoritativePilotReady(b) then false
    else CliFailed(b) || (b.claim.ClaimsScaffold? && !b.pilotReady)
  }

  // ---- what the page shows -----------------------------------------------------------------------

  /** `exportAffordance`; `Gold` is the only button that is no ghost. */
  datatype Button = AsIs | InProgress | BelowFloor(need: real) | AcceptanceShort(score: (real, real)) | Prototype | Gold

  function ExportAffordance(build: Option<Build>): Button {
    if build.None? then InProgress
    else
      var b := build.value;
      if Unreadable(b) || b.state == Failed || b.state == Stalled || ProductSuiteFailed(b) || b.outcomeBad then AsIs
      else if b.state == Building || b.state == NotStarted then InProgress
      else if IsBelowFloor(b) && ClaimsStoreGreenPilot(b) then BelowFloor(AuthoredNeed(b))
      else if IsAcceptancePending(b) || (b.pilotReady && !IsAcceptanceKk(b)) then AcceptanceShort(AcceptanceScore(b))
      else if ShouldRefuseExport(b) then AsIs
      else if b.state == Succeeded && !IsPilotZipReady(b) then Prototype
      else if b.state == Succeeded && IsPilotZipReady(b) then Gold
      else InProgress
  }

  /** `platformsLeadCopy`; `Invite` is the one that says to download. */
  datatype Copy = NoGeneration | LedgerUnreadable | AcceptanceNotMet(score: (real, real)) | GatesFailed | FloorRefused
                | Writing | RunStalled | PrototypeOnly | Invite

  function PlatformsLeadCopy(build: Option<Build>, hasGeneration: bool): Copy {
    if !hasGeneration then NoGeneration
    else if build.None? then Writing
    else
      var b := build.value;
      if Unreadable(b) then LedgerUnreadable
      else if IsAcceptancePending(b) then AcceptanceNotMet(AcceptanceScore(b))
      else if ShouldRefuseExport(b) && !(IsBelowFloor(b) && ClaimsStoreGreenPilot(b)) then GatesFailed
      else if IsBelowFloor(b) && ClaimsStoreGreenPilot(b) then FloorRefused
      else if b.state == Building || b.state == NotStarted || b.state == Unknown then Writing
      else if b.state == Failed then GatesFailed
      else if b.state == Stalled then RunStalled
      else if b.state == Succeeded && !IsPilotZipReady(b) then PrototypeOnly
      else Invite
  }

  // ---- repainting --------------------------------------------------------------------------------

  /** The detail of a refusal looked at again, and of a red PRODUCT suite. */
  const CODE_PASS := Words(false, true, false, false)
  const PLAIN := Words(false, false, false, false)

  /** `refuseExportDetail`. */
  function RefusalDetail(b: Build): Words {
    if b.detail.Some? then b.detail.value
    else if b.facts.receiptText.Some? then b.facts.receiptText.value
    else if ProductSuiteFailed(b) then PLAIN
    else if b.outcomeBad then b.facts.outcomeText
    else b.facts.failureText
  }

  /** `reevaluateStickyThinAuthorship`. */
  function Reevaluate(b: Build): Build {
    if !StickyThin(b) || b.state == Building || b.state == NotStarted || IsBelowFloor(b)
       || AuthoredCount(b.facts.authorship).None? || (b.state == Succeeded && b.pilotReady) then b
    else
      b.(state := Succeeded, outcomeBad := false, pilotReady := b.facts.pilotCycle,
         detail := if SaysCodePass(b) then b.detail else Some(CODE_PASS),
         claim := if b.facts.pilotCycle then ClaimsStoreGreen else ClaimsCodeGreen,
         fullPilot := b.facts.pilotCycle, foundingReady := false,
         product := if b.facts.pilotCycle then Pass else OtherVerdict,
         store := if b.facts.pilotCycle then Pass else OtherVerdict)
  }

  function WithExportHonesty(raw: Build): Build { Demote(Reevaluate(raw)) }

  /** The rest of `withExportHonesty`. */
  function Demote(b: Build): Build {
    DemoteIf(b, IsBelowFloor(b) && ClaimsStoreGreenPilot(b), !IsAuthoritativePilotReady(b) && ShouldRefuseExport(b))
  }

  function DemoteIf(b: Build, thin: bool, refused: bool): Build {
    if b.state == Building || b.state == NotStarted then b
    else if b.state == Succeeded && thin then
      b.(pilotReady := false, claim := ClaimsCodeGreen, fullPilot := false, foundingReady := false)
    else if !refused then b
    else if b.state == Failed || b.state == Stalled then
      if b.pilotReady || b.foundingReady
      then b.(pilotReady := false, claim := ClaimsScaffold, foundingReady := false) else b
    else
      b.(state := Failed, pilotReady := false, claim := ClaimsScaffold, foundingReady := false,
         detail := Some(RefusalDetail(b)))
  }

  function WithLedgerHonesty(b: Build): Build {
    if b.state == Unknown && Unreadable(b) then b.(state := Failed, pilotReady := false) else b
  }
}
