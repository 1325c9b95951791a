/**
 Admission of a campaign launch. A correction carries the initial admission it
 corrects and validates it again, as a historical record, before anything else
 about it is believed.
 */
module Admissions {
  import opened Wrappers
  import opened Roster

  type Digest = string
  type Model = string

  datatype Mode = SyntheticMode | PaidMode
  datatype Operation = Initial | Resume | Correction | OtherOperation
  datatype Profile = Legacy | Latest | Meta | SelectedSix | November | Gemini | OtherProfile
  datatype ModeProfile = OffOrMinimum | GeminiLow | OtherMode
  datatype Execution = OptionalLimits | MetaUncapped | GeminiUncapped | OtherExecution

  datatype LimitPolicy = LimitPolicy(mode: Execution, ownerAccepted: bool, source: Digest, evidence: Digest)

  datatype OwnerPricing = OwnerPricing(source: Digest, registryEntry: Digest, rates: Digest)

  /** The settings of one model; `rest` stands for every field the admission itself does not read. */
  datatype ModelProfile = ModelProfile(execution: Option<Execution>, owner: Option<OwnerPricing>, rest: Digest)

  /** Each model's registry row, by its digest. */
  type Registry = map<Model, Digest>

  datatype Fix = Fix(technicalReason: bool, evidence: Digest)

  datatype Binding = Binding(
    closed: bool,
    ownerAccepted: bool,
    originalSource: Digest,
    executionSource: Digest,
    financialCap: Option<string>,
    financialLimits: Option<LimitPolicy>,
    artifacts: set<Trial>,
    original: Admission)

  datatype Admission = Admission(
    approved: bool,
    mode: Mode,
    source: Digest,
    runtime: Digest,
    registry: Registry,
    campaign: string,
    attempt: string,
    campaignRoot: string,
    custodyRoot: string,
    cap: Option<string>,
    rosterProfile: Option<Profile>,
    modeProfile: Option<ModeProfile>,
    limits: Option<LimitPolicy>,
    selected: seq<Trial>,
    profiles: map<Model, ModelProfile>,
    assets: Option<Digest>,
    operation: Operation,
    originalClaim: Option<Digest>,
    journal: Option<Digest>,
    pending: seq<Trial>,
    corrections: map<Trial, Fix>,
    gatesPassed: bool,
    noInterveningSpend: bool,
    correction: Option<Binding>)

  /**
   What the checks read from today's installation: its runtime, registry and assets, and the
   fixed facts about rosters and model profiles.
   */
  datatype Today = Today(
    runtime: Digest,
    registry: (Profile, Option<ModeProfile>) -> Registry,
    assetsFine: (Option<Digest>, bool) -> bool)

  datatype Rules = Rules(
    roster: Profile -> seq<Model>,
    configurations: nat,
    profileFine: (ModelProfile, Model, Profile) -> bool,
    geminiProfile: (Model, Mode) -> ModelProfile,
    usesNativeAssets: Model -> bool,
    identifier: string -> bool,
    absolute: string -> bool,
    digest64: Digest -> bool,
    recordedRuntimeFine: Digest -> bool,
    recordedAssetsFine: (Option<Digest>, bool) -> bool,
    limitsWellFormed: LimitPolicy -> bool)

  datatype Refusal =
    | HistoricalGemini | GeminiScope | UnknownRoster | UnknownModeProfile | NotInitial
    | NoCorrectionConsent | WrongArtifacts | AuthorityChanged | IdentityNotRecorded
    | LimitsMissing | LimitsSource | Scope | UnorderedSelection | WrongProfiles
    | BorrowedAuthority | AssetsRefused

  function RosterOf(a: Admission): Profile {
    match a.rosterProfile case None => Legacy case Some(p) => p
  }

  function Trials(rules: Rules, p: Profile): seq<Trial> {
    Assignments(|rules.roster(p)|, rules.configurations)
  }

  /** The models of the selected trials. */
  function SelectedModels(rules: Rules, p: Profile, selected: seq<Trial>): set<Model> {
    set t | t in selected && t.model < |rules.roster(p)| :: rules.roster(p)[t.model]
  }

  function Expected(a: Admission): Execution {
    if RosterOf(a) == Meta then MetaUncapped else OptionalLimits
  }

  // ------------------------------------------------------------ the parts of the check

  predicate RosterAllowed(a: Admission) {
    a.rosterProfile.Some? ==>
      a.rosterProfile.value in {Latest, Meta, SelectedSix, November} && a.modeProfile == Some(OffOrMinimum)
  }

  predicate LimitsFine(rules: Rules, l: LimitPolicy, mode: Execution) {
    l.mode == mode && l.ownerAccepted && rules.limitsWellFormed(l)
  }

  predicate CapFine(a: Admission) {
    if a.limits.Some? then a.cap == None else a.cap == Some(if RosterOf(a) == Meta then "990" else "1000")
  }

  /** Schema, mode, source, installation, cap, names and gates. */
  predicate ScopeFine(today: Today, rules: Rules, a: Admission, sha: Digest, synthetic: bool, historical: bool) {
    && a.approved == !synthetic
    && a.mode == (if synthetic then SyntheticMode else PaidMode)
    && a.source == sha
    && (historical || a.runtime == today.runtime)
    && (historical || a.registry == today.registry(RosterOf(a), a.modeProfile))
    && CapFine(a)
    && rules.identifier(a.campaign) && rules.identifier(a.attempt)
    && a.gatesPassed && a.noInterveningSpend
  }

  /** The shape of a recorded installation, never compared with today's. */
  predicate RecordedIdentity(rules: Rules, a: Admission) {
    && rules.absolute(a.campaignRoot) && rules.absolute(a.custodyRoot)
    && rules.recordedRuntimeFine(a.runtime)
    && (forall m :: m in rules.roster(RosterOf(a)) ==> m in a.registry)
  }

  predicate ProfilesFine(rules: Rules, a: Admission, pricing: Registry, financialSource: Digest) {
    var models := SelectedModels(rules, RosterOf(a), a.selected);
    && a.profiles.Keys == models
    && forall m :: m in models ==>
         && rules.profileFine(a.profiles[m], m, RosterOf(a))
         && (a.limits.Some? <==> a.profiles[m].execution == Some(Expected(a)))
         && (a.profiles[m].owner.Some? ==>
               && a.profiles[m].owner.value.source == financialSource
               && m in pricing && a.profiles[m].owner.value.registryEntry == pricing[m])
  }

  predicate OperationFine(rules: Rules, a: Admission) {
    && !a.operation.OtherOperation?
    && (a.operation.Initial? ==>
          a.originalClaim.None? && a.journal.None? && a.pending == a.selected && a.corrections == map[])
    && (!a.operation.Initial? ==>
          && a.originalClaim.Some? && rules.digest64(a.originalClaim.value)
          && a.journal.Some? && rules.digest64(a.journal.value))
    && PendingOk(a.selected, a.pending)
    && (!a.operation.Correction? ==> a.corrections == map[])
    && (a.operation.Correction? ==>
          && a.pending == []
          && a.corrections.Keys == (set t | t in a.selected)
          && forall t :: t in a.corrections ==>
               a.corrections[t].technicalReason && rules.digest64(a.corrections[t].evidence))
  }

  predicate AssetsFine(today: Today, rules: Rules, a: Admission, historical: bool) {
    var native := exists m :: m in SelectedModels(rules, RosterOf(a), a.selected) && rules.usesNativeAssets(m);
    if !historical then today.assetsFine(a.assets, native) else rules.recordedAssetsFine(a.assets, native)
  }

  predicate Consented(a: Admission, sha: Digest)
    requires a.correction.Some?
  {
    var b := a.correction.value;
    b.closed && b.ownerAccepted && a.operation.Correction? && b.executionSource == sha
  }

  /** The correction keeps the campaign, the roots, the mode, the money and the prices. */
  predicate SameAuthority(a: Admission)
    requires a.correction.Some?
  {
    var b := a.correction.value;
    var prior := b.original;
    && prior.operation.Initial? && prior.correction.None? && prior.source == b.originalSource
    && prior.campaign == a.campaign && prior.campaignRoot == a.campaignRoot && prior.custodyRoot == a.custodyRoot
    && prior.mode == a.mode && prior.cap == a.cap
    && RosterOf(prior) == RosterOf(a)
    && prior.limits == a.limits
    && b.financialCap == a.cap && b.financialLimits == a.limits
    && forall m :: m in a.profiles ==> m in prior.profiles && prior.profiles[m] == a.profiles[m]
  }

  predicate GeminiFine(today: Today, rules: Rules, a: Admission, sha: Digest, synthetic: bool) {
    && a.correction.None? && a.limits.Some? && a.rosterProfile == Some(Gemini)
    && a.approved == !synthetic
    && a.mode == (if synthetic then SyntheticMode else PaidMode)
    && a.source == sha
    && a.modeProfile == Some(GeminiLow)
    && a.cap.None? && a.operation.Initial? && a.originalClaim.None? && a.journal.None?
    && a.corrections == map[] && a.assets.None? && a.gatesPassed && a.noInterveningSpend
    && a.runtime == today.runtime && a.registry == today.registry(Gemini, Some(GeminiLow))
    && rules.identifier(a.campaign) && rules.identifier(a.attempt)
    && LimitsFine(rules, a.limits.value, GeminiUncapped) && a.limits.value.source == sha
    && a.selected != [] && a.selected == Kept(Trials(rules, Gemini), a.selected) && a.pending == a.selected
    && a.profiles.Keys == SelectedModels(rules, Gemini, a.selected)
    && (forall m :: m in a.profiles ==> a.profiles[m] == rules.geminiProfile(m, a.mode))
    && rules.absolute(a.campaignRoot) && rules.absolute(a.custodyRoot)
  }

  // ------------------------------------------------------------ the whole check

  /** None is acceptance. `historical` marks the original admission embedded in a correction. */
  function Validate(today: Today, rules: Rules, a: Admission, sha: Digest, synthetic: bool, historical: bool)
      : Option<Refusal>
    decreases !historical
  {
    if a.rosterProfile == Some(Gemini) then
      if historical then Some(HistoricalGemini)
      else if GeminiFine(today, rules, a, sha, synthetic) then None else Some(GeminiScope)
    else if !RosterAllowed(a) then Some(UnknownRoster)
    else if a.modeProfile.Some? && a.modeProfile.value != OffOrMinimum then Some(UnknownModeProfile)
    else if historical && (a.correction.Some? || !a.operation.Initial?) then Some(NotInitial)
    else
      var bound := if a.correction.None? then None else ValidateCorrection(today, rules, a, sha);
      if bound.Some? then bound
      else ValidateRest(today, rules, a, sha, synthetic, historical)
  }

  /** The correction's own consent, then the embedded original, then that nothing financial changed. */
  function ValidateCorrection(today: Today, rules: Rules, a: Admission, sha: Digest): Option<Refusal>
    requires a.correction.Some?
    decreases true, 0
  {
    var b := a.correction.value;
    if !Consented(a, sha) then Some(NoCorrectionConsent)
    else if b.artifacts != (set t | t in a.selected) then Some(WrongArtifacts)
    else
      var prior := Validate(today, rules, b.original, b.originalSource, a.mode == SyntheticMode, true);
      if prior.Some? then prior
      else if !SameAuthority(a) then Some(AuthorityChanged)
      else None
  }

  function ValidateRest(today: Today, rules: Rules, a: Admission, sha: Digest, synthetic: bool, historical: bool)
      : Option<Refusal>
  {
    var financialSource := if a.correction.Some? then a.correction.value.originalSource else sha;
    var pricing := if a.correction.Some? then a.correction.value.original.registry else a.registry;
    if historical && !RecordedIdentity(rules, a) then Some(IdentityNotRecorded)
    else if a.limits.Some? && !LimitsFine(rules, a.limits.value, Expected(a)) then Some(LimitsMissing)
    else if a.limits.Some? && a.limits.value.source != financialSource then Some(LimitsSource)
    else if !ScopeFine(today, rules, a, sha, synthetic, historical) then Some(Scope)
    else if !SelectionOk(Trials(rules, RosterOf(a)), a.selected) then Some(UnorderedSelection)
    else if !ProfilesFine(rules, a, pricing, financialSource) then Some(WrongProfiles)
    else if !OperationFine(rules, a) then Some(BorrowedAuthority)
    else if !AssetsFine(today, rules, a, historical) then Some(AssetsRefused)
    else None
  }

  // ------------------------------------------------------------ nesting

  /** How many admissions are embedded one inside the other. */
  function Depth(a: Admission): nat {
    match a.correction
    case None => 0
    case Some(b) => 1 + Depth(b.original)
  }

  /** Only a plain initial admission validates as a historical one. */
  lemma HistoricalIsPlainInitial(today: Today, rules: Rules, a: Admission, sha: Digest, synthetic: bool)
    requires Validate(today, rules, a, sha, synthetic, true) == None
    ensures a.operation.Initial? && a.correction.None? && a.rosterProfile != Some(Gemini)
    ensures ValidateRest(today, rules, a, sha, synthetic, true) == None
  {
    hide ValidateRest;
  }

  lemma CorrectionAccepted(today: Today, rules: Rules, a: Admission, sha: Digest, synthetic: bool, historical: bool)
    requires Validate(today, rules, a, sha, synthetic, historical) == None && a.correction.Some?
    ensures !historical && Consented(a, sha) && SameAuthority(a)
    ensures a.correction.value.artifacts == (set t | t in a.selected)
    ensures Validate(today, rules, a.correction.value.original, a.correction.value.originalSource,
                     a.mode == SyntheticMode, true) == None
    ensures ValidateRest(today, rules, a, sha, synthetic, historical) == None
  {
    hide ValidateRest, Consented, SameAuthority;
  }

  /** An accepted admission embeds at most one other, however deep the input was nested. */
  lemma NestingAtMostOne(today: Today, rules: Rules, a: Admission, sha: Digest, synthetic: bool, historical: bool)
    requires Validate(today, rules, a, sha, synthetic, historical) == None
    ensures Depth(a) <= if historical then 0 else 1
  {
    hide Validate, ValidateRest, Consented, SameAuthority;
    if historical {
      HistoricalIsPlainInitial(today, rules, a, sha, synthetic);
    } else if a.correction.Some? {
      CorrectionAccepted(today, rules, a, sha, synthetic, historical);
      var b := a.correction.value;
      HistoricalIsPlainInitial(today, rules, b.original, b.originalSource, a.mode == SyntheticMode);
    }
  }

  // ------------------------------------------------------------ what a correction keeps

  /** Every accepted correction embeds an accepted initial admission with the same financial authority. */
  lemma CorrectionEmbedsInitial(today: Today, rules: Rules, a: Admission, sha: Digest,
                                synthetic: bool, historical: bool)
    requires Validate(today, rules, a, sha, synthetic, historical) == None && a.correction.Some?
    ensures var prior := a.correction.value.original;
            && Validate(today, rules, prior, a.correction.value.originalSource, synthetic, true) == None
            && prior.operation.Initial? && prior.correction.None? && prior.pending == prior.selected
            && prior.campaign == a.campaign
            && prior.campaignRoot == a.campaignRoot && prior.custodyRoot == a.custodyRoot
            && prior.mode == a.mode && prior.cap == a.cap && prior.limits == a.limits
            && RosterOf(prior) == RosterOf(a)
            && prior.approved == a.approved
  {
    CorrectionAccepted(today, rules, a, sha, synthetic, historical);
    var b := a.correction.value;
    assert (a.mode == SyntheticMode) == synthetic;
    hide Validate, ProfilesFine, AssetsFine, SelectionOk, LimitsFine;
    HistoricalIsPlainInitial(today, rules, b.original, b.originalSource, synthetic);
  }

  /** A correction brings no model and no price the original admission did not have. */
  lemma CorrectionStaysInside(today: Today, rules: Rules, a: Admission, sha: Digest, synthetic: bool, historical: bool)
    requires Validate(today, rules, a, sha, synthetic, historical) == None && a.correction.Some?
    ensures var prior := a.correction.value.original;
            && SelectedModels(rules, RosterOf(a), a.selected) <= SelectedModels(rules, RosterOf(a), prior.selected)
            && forall m :: m in a.profiles ==>
                 m in prior.profiles && prior.profiles[m] == a.profiles[m]
                 && (a.profiles[m].owner.Some? ==>
                       && m in prior.registry
                       && a.profiles[m].owner.value.registryEntry == prior.registry[m]
                       && a.profiles[m].owner.value.source == prior.source)
  {
    CorrectionAccepted(today, rules, a, sha, synthetic, historical);
    var b := a.correction.value;
    hide Validate, AssetsFine, SelectionOk, LimitsFine, ScopeFine, OperationFine, SelectedModels, Consented;
    HistoricalIsPlainInitial(today, rules, b.original, b.originalSource, a.mode == SyntheticMode);
    assert a.profiles.Keys <= b.original.profiles.Keys;
  }

  /** The trials of a correction: ordered roster members, each with its confirmed fix, none pending. */
  lemma CorrectionCoversItsTrials(today: Today, rules: Rules, a: Admission, sha: Digest,
                                  synthetic: bool, historical: bool)
    requires Validate(today, rules, a, sha, synthetic, historical) == None && a.correction.Some?
    ensures a.selected != [] && Distinct(a.selected) && Subsequence(a.selected, Trials(rules, RosterOf(a)))
    ensures a.pending == [] && forall t :: t in a.corrections <==> t in a.selected
    ensures a.correction.value.artifacts == a.corrections.Keys
  {
    CorrectionAccepted(today, rules, a, sha, synthetic, historical);
    hide Validate, AssetsFine, ProfilesFine, LimitsFine, ScopeFine, SameAuthority;
    AssignmentsDistinct(|rules.roster(RosterOf(a))|, rules.configurations);
    hide SelectionOk, Subsequence, Assignments;
    SelectionIffOrdered(Trials(rules, RosterOf(a)), a.selected);
  }

  // ------------------------------------------------------------ history does not age

  /** A historical admission is judged without today's runtime, registry or assets. */
  lemma HistoryIgnoresToday(today: Today, today': Today, rules: Rules, a: Admission, sha: Digest, synthetic: bool)
    ensures Validate(today, rules, a, sha, synthetic, true) == Validate(today', rules, a, sha, synthetic, true)
  {
    hide ProfilesFine, OperationFine, SelectionOk, LimitsFine, RosterAllowed;
    assert ScopeFine(today, rules, a, sha, synthetic, true) == ScopeFine(today', rules, a, sha, synthetic, true);
    assert AssetsFine(today, rules, a, true) == AssetsFine(today', rules, a, true);
    hide ScopeFine, AssetsFine;
  }

  /** Assets recorded in the shape a historical reading asks for. */
  predicate RecordedAssets(rules: Rules, a: Admission) {
    var native := exists m :: m in SelectedModels(rules, RosterOf(a), a.selected) && rules.usesNativeAssets(m);
    rules.recordedAssetsFine(a.assets, native)
  }

  /** What was accepted as an initial admission then is accepted as the embedded original ever after. */
  lemma AcceptedInitialStaysValid(today: Today, later: Today, rules: Rules, a: Admission, sha: Digest, synthetic: bool)
    requires Validate(today, rules, a, sha, synthetic, false) == None
    requires a.operation.Initial? && a.rosterProfile != Some(Gemini)
    requires RecordedIdentity(rules, a) && RecordedAssets(rules, a)
    ensures Validate(later, rules, a, sha, synthetic, true) == None
  {
    InitialHasNoCorrection(today, rules, a, sha, synthetic);
    HistoryIgnoresToday(today, later, rules, a, sha, synthetic);
    hide ProfilesFine, OperationFine, SelectionOk, LimitsFine, RecordedIdentity;
  }

  lemma InitialHasNoCorrection(today: Today, rules: Rules, a: Admission, sha: Digest, synthetic: bool)
    requires Validate(today, rules, a, sha, synthetic, false) == None && a.operation.Initial?
    ensures a.correction.None?
  {
    if a.correction.Some? {
      CorrectionAccepted(today, rules, a, sha, synthetic, false);
    }
  }

  /** An accepted initial series borrows nothing: all of it is pending and ordered by the roster. */
  lemma InitialBorrowsNothing(today: Today, rules: Rules, a: Admission, sha: Digest, synthetic: bool, historical: bool)
    requires Validate(today, rules, a, sha, synthetic, historical) == None && a.operation.Initial?
    ensures a.originalClaim.None? && a.journal.None? && a.corrections == map[] && a.pending == a.selected
    ensures Distinct(a.pending) && Subsequence(a.pending, Trials(rules, RosterOf(a)))
  {
    InitialPasses(today, rules, a, sha, synthetic, historical);
    hide Validate, OperationFine, Subsequence, Assignments, Kept, Distinct;
    var ids := Trials(rules, RosterOf(a));
    AssignmentsDistinct(|rules.roster(RosterOf(a))|, rules.configurations);
    KeptIffSubsequence(a.selected, ids);
    SubsequenceDistinct(a.selected, ids);
  }

  /** An accepted initial series borrows nothing and selects a filtered roster, whichever validation it went through. */
  lemma InitialPasses(today: Today, rules: Rules, a: Admission, sha: Digest, synthetic: bool, historical: bool)
    requires Validate(today, rules, a, sha, synthetic, historical) == None && a.operation.Initial?
    ensures a.originalClaim.None? && a.journal.None? && a.corrections == map[] && a.pending == a.selected
    ensures a.selected == Kept(Trials(rules, RosterOf(a)), a.selected)
  {
    hide ProfilesFine, LimitsFine, ScopeFine, AssetsFine, RecordedIdentity, SameAuthority, ValidateCorrection;
    hide Assignments, Kept, Trials, SelectedModels;
  }

  // ------------------------------------------------------------ what a correction has to bring itself

  /** The part of an admission that is about money: limits, cap, campaign, and each profile's prices and controls. */
  predicate MoneyFine(rules: Rules, a: Admission, pricing: Registry, source: Digest) {
    && (a.limits.Some? ==> LimitsFine(rules, a.limits.value, Expected(a)) && a.limits.value.source == source)
    && CapFine(a) && rules.identifier(a.campaign)
    && forall m :: m in a.profiles ==>
         && rules.profileFine(a.profiles[m], m, RosterOf(a))
         && (a.limits.Some? <==> a.profiles[m].execution == Some(Expected(a)))
         && (a.profiles[m].owner.Some? ==>
               && a.profiles[m].owner.value.source == source
               && m in pricing && a.profiles[m].owner.value.registryEntry == pricing[m])
  }

  /** What is left for a correction to answer for: mode, installation, its attempt, gates, trials, fixes and assets. */
  predicate OwnPart(today: Today, rules: Rules, a: Admission, sha: Digest, synthetic: bool) {
    && RosterAllowed(a) && (a.modeProfile.Some? ==> a.modeProfile.value == OffOrMinimum)
    && a.approved == !synthetic && a.mode == (if synthetic then SyntheticMode else PaidMode) && a.source == sha
    && a.runtime == today.runtime && a.registry == today.registry(RosterOf(a), a.modeProfile)
    && rules.identifier(a.attempt) && a.gatesPassed && a.noInterveningSpend
    && SelectionOk(Trials(rules, RosterOf(a)), a.selected)
    && a.profiles.Keys == SelectedModels(rules, RosterOf(a), a.selected)
    && OperationFine(rules, a)
    && AssetsFine(today, rules, a, false)
  }

  /** The tests after the correction step are the money part and the rest. */
  lemma RestSplits(today: Today, rules: Rules, a: Admission, sha: Digest, synthetic: bool)
    requires a.correction.Some? && RosterAllowed(a) && (a.modeProfile.Some? ==> a.modeProfile.value == OffOrMinimum)
    ensures ValidateRest(today, rules, a, sha, synthetic, false) == None
       <==> MoneyFine(rules, a, a.correction.value.original.registry, a.correction.value.originalSource)
            && OwnPart(today, rules, a, sha, synthetic)
  {
    hide LimitsFine, SelectionOk, OperationFine, AssetsFine, SelectedModels, CapFine, RecordedIdentity;
  }

  /** An accepted original has its money part in order, against its own registry and source. */
  lemma OriginalMoney(today: Today, rules: Rules, prior: Admission, source: Digest, synthetic: bool)
    requires Validate(today, rules, prior, source, synthetic, true) == None
    ensures MoneyFine(rules, prior, prior.registry, source)
    ensures prior.profiles.Keys == SelectedModels(rules, RosterOf(prior), prior.selected)
  {
    HistoricalIsPlainInitial(today, rules, prior, source, synthetic);
    hide Validate, LimitsFine, SelectionOk, OperationFine, AssetsFine, SelectedModels, CapFine, RecordedIdentity;
  }

  /** The same authority carries the original's money part over. */
  lemma MoneyCarries(rules: Rules, a: Admission)
    requires a.correction.Some? && SameAuthority(a)
    requires MoneyFine(rules, a.correction.value.original, a.correction.value.original.registry,
                       a.correction.value.originalSource)
    ensures MoneyFine(rules, a, a.correction.value.original.registry, a.correction.value.originalSource)
  {
    hide LimitsFine;
  }

  lemma RouteOfCorrection(today: Today, rules: Rules, a: Admission, sha: Digest, synthetic: bool, historical: bool)
    requires a.correction.Some?
    ensures Validate(today, rules, a, sha, synthetic, historical) == None
       <==> && !historical && a.rosterProfile != Some(Gemini) && RosterAllowed(a)
            && (a.modeProfile.Some? ==> a.modeProfile.value == OffOrMinimum)
            && ValidateCorrection(today, rules, a, sha) == None
            && ValidateRest(today, rules, a, sha, synthetic, false) == None
  {
    hide ValidateCorrection, ValidateRest, RosterAllowed;
  }

  lemma CorrectionStep(today: Today, rules: Rules, a: Admission, sha: Digest)
    requires a.correction.Some?
    ensures ValidateCorrection(today, rules, a, sha) == None
       <==> && Consented(a, sha) && SameAuthority(a)
            && a.correction.value.artifacts == (set t | t in a.selected)
            && Validate(today, rules, a.correction.value.original, a.correction.value.originalSource,
                        a.mode == SyntheticMode, true) == None
  {
    hide Consented, SameAuthority, Validate;
  }

  /**
   Exactly when a correction is accepted: consent, its trials' original artifacts, an accepted
   historical original of depth zero with the same authority, and the correction's own part.
   Limits, cap, campaign, profiles and prices need no second look: the original answers for them.
   */
  lemma CorrectionAcceptedIff(today: Today, rules: Rules, a: Admission, sha: Digest, synthetic: bool, historical: bool)
    requires a.correction.Some?
    ensures Validate(today, rules, a, sha, synthetic, historical) == None
       <==> var b := a.correction.value;
            && !historical && Consented(a, sha) && SameAuthority(a) && b.artifacts == (set t | t in a.selected)
            && Depth(b.original) == 0 && Validate(today, rules, b.original, b.originalSource, synthetic, true) == None
            && OwnPart(today, rules, a, sha, synthetic)
  {
    var b := a.correction.value;
    RouteOfCorrection(today, rules, a, sha, synthetic, historical);
    CorrectionStep(today, rules, a, sha);
    assert OwnPart(today, rules, a, sha, synthetic) ==>
             (a.mode == SyntheticMode) == synthetic && RosterAllowed(a) && a.rosterProfile != Some(Gemini);
    if RosterAllowed(a) && (a.modeProfile.Some? ==> a.modeProfile.value == OffOrMinimum) {
      RestSplits(today, rules, a, sha, synthetic);
    }
    if Validate(today, rules, b.original, b.originalSource, synthetic, true) == None {
      NestingAtMostOne(today, rules, b.original, b.originalSource, synthetic, true);
      OriginalMoney(today, rules, b.original, b.originalSource, synthetic);
      if SameAuthority(a) { MoneyCarries(rules, a); }
    }
    hide Validate, ValidateCorrection, ValidateRest, Consented, SameAuthority, OwnPart, MoneyFine, RosterAllowed;
  }

  // ------------------------------------------------------------ which trials may be corrected

  /** An accepted correction of `prior`. */
  ghost predicate Corrects(today: Today, rules: Rules, a: Admission, sha: Digest, prior: Admission) {
    && a.correction.Some? && a.correction.value.original == prior
    && Validate(today, rules, a, sha, prior.mode == SyntheticMode, false) == None
  }

  predicate Native(rules: Rules, m: Model) {
    rules.usesNativeAssets(m)
  }

  /** The least correction of one trial. */
  function CorrectionOf(today: Today, rules: Rules, prior: Admission, sha: Digest, t: Trial, digest: Digest,
                        assets: Option<Digest>): Admission
    requires t.model < |rules.roster(RosterOf(prior))| && rules.roster(RosterOf(prior))[t.model] in prior.profiles
  {
    var m := rules.roster(RosterOf(prior))[t.model];
    prior.(source := sha, runtime := today.runtime, registry := today.registry(RosterOf(prior), prior.modeProfile),
           selected := [t], profiles := map[m := prior.profiles[m]], assets := assets,
           operation := Correction, originalClaim := Some(digest), journal := Some(digest),
           pending := [], corrections := map[t := Fix(true, digest)],
           correction := Some(Binding(true, true, prior.source, sha, prior.cap, prior.limits, {t}, prior)))
  }

  lemma OneTrial(rules: Rules, p: Profile, t: Trial)
    requires t.model < |rules.roster(p)| && t.configuration < rules.configurations
    ensures SelectionOk(Trials(rules, p), [t])
    ensures SelectedModels(rules, p, [t]) == {rules.roster(p)[t.model]}
    ensures (set x | x in [t]) == {t}
  {
    var ids := Trials(rules, p);
    AssignmentsMembers(|rules.roster(p)|, rules.configurations, t);
    AssignmentsDistinct(|rules.roster(p)|, rules.configurations);
    hide Trials, Distinct;
    SingleSelection(ids, t);
    assert t in [t];
  }

  /** Nothing of that correction is refused. */
  lemma CorrectionOfIsAccepted(today: Today, rules: Rules, prior: Admission, sha: Digest, t: Trial, digest: Digest,
                               assets: Option<Digest>)
    requires Validate(today, rules, prior, prior.source, prior.mode == SyntheticMode, true) == None
    requires t.model < |rules.roster(RosterOf(prior))| && t.configuration < rules.configurations
    requires rules.roster(RosterOf(prior))[t.model] in prior.profiles
    requires rules.digest64(digest) && today.assetsFine(assets, Native(rules, rules.roster(RosterOf(prior))[t.model]))
    ensures Corrects(today, rules, CorrectionOf(today, rules, prior, sha, t, digest, assets), sha, prior)
  {
    var a := CorrectionOf(today, rules, prior, sha, t, digest, assets);
    var synthetic := prior.mode == SyntheticMode;
    NestingAtMostOne(today, rules, prior, prior.source, synthetic, true);
    OneTrial(rules, RosterOf(prior), t);
    CorrectionOwnPart(today, rules, prior, sha, t, digest, assets);
    CorrectionAuthority(today, rules, prior, sha, t, digest, assets);
    hide Validate, OwnPart, SameAuthority, SelectionOk;
    CorrectionAcceptedIff(today, rules, a, sha, synthetic, false);
  }

  lemma CorrectionAuthority(today: Today, rules: Rules, prior: Admission, sha: Digest, t: Trial, digest: Digest,
                            assets: Option<Digest>)
    requires Validate(today, rules, prior, prior.source, prior.mode == SyntheticMode, true) == None
    requires t.model < |rules.roster(RosterOf(prior))| && rules.roster(RosterOf(prior))[t.model] in prior.profiles
    ensures SameAuthority(CorrectionOf(today, rules, prior, sha, t, digest, assets))
  {
    HistoricalIsPlainInitial(today, rules, prior, prior.source, prior.mode == SyntheticMode);
    hide Validate, ValidateRest;
  }

  lemma CorrectionOwnPart(today: Today, rules: Rules, prior: Admission, sha: Digest, t: Trial, digest: Digest,
                          assets: Option<Digest>)
    requires Validate(today, rules, prior, prior.source, prior.mode == SyntheticMode, true) == None
    requires t.model < |rules.roster(RosterOf(prior))| && t.configuration < rules.configurations
    requires rules.roster(RosterOf(prior))[t.model] in prior.profiles
    requires rules.digest64(digest) && today.assetsFine(assets, Native(rules, rules.roster(RosterOf(prior))[t.model]))
    ensures OwnPart(today, rules, CorrectionOf(today, rules, prior, sha, t, digest, assets), sha,
                    prior.mode == SyntheticMode)
  {
    HistoricalShape(today, rules, prior, prior.source, prior.mode == SyntheticMode);
    OneTrial(rules, RosterOf(prior), t);
    hide Validate, SelectionOk, Trials, RosterAllowed;
    var a := CorrectionOf(today, rules, prior, sha, t, digest, assets);
    var p := RosterOf(prior);
    assert RosterOf(a) == p && SelectedModels(rules, p, a.selected) == {rules.roster(p)[t.model]};
    OneFix(rules, a, t, digest);
    AloneNative(today, rules, a, rules.roster(p)[t.model]);
    hide OperationFine, AssetsFine, SelectedModels;
  }

  lemma OneFix(rules: Rules, a: Admission, t: Trial, digest: Digest)
    requires a.operation.Correction? && a.selected == [t] && a.pending == []
    requires a.corrections == map[t := Fix(true, digest)]
    requires a.originalClaim == Some(digest) && a.journal == Some(digest) && rules.digest64(digest)
    ensures OperationFine(rules, a)
  {
    assert Kept([t], []) == [] by { assert [t][..0] == []; }
    assert (set x | x in a.selected) == {t};
  }

  /** With one selected model the asset test asks about that model. */
  lemma AloneNative(today: Today, rules: Rules, a: Admission, m: Model)
    requires SelectedModels(rules, RosterOf(a), a.selected) == {m} && today.assetsFine(a.assets, Native(rules, m))
    ensures AssetsFine(today, rules, a, false)
  {
    hide SelectedModels;
    var native := exists x :: x in SelectedModels(rules, RosterOf(a), a.selected) && rules.usesNativeAssets(x);
    assert m in {m};
    assert native == Native(rules, m);
  }

  lemma HistoricalShape(today: Today, rules: Rules, prior: Admission, source: Digest, synthetic: bool)
    requires Validate(today, rules, prior, source, synthetic, true) == None
    ensures RosterAllowed(prior) && (prior.modeProfile.Some? ==> prior.modeProfile.value == OffOrMinimum)
    ensures prior.approved == !synthetic && prior.mode == (if synthetic then SyntheticMode else PaidMode)
    ensures rules.identifier(prior.attempt) && prior.gatesPassed && prior.noInterveningSpend
  {
    hide LimitsFine, SelectionOk, OperationFine, AssetsFine, ProfilesFine, CapFine, RecordedIdentity, RosterAllowed;
  }

  /**
   Which trials of the roster an accepted correction may name: exactly those whose model the
   original priced. That the original selected the trial itself is not asked for here.
   */
  lemma TrialIsCorrectableIff(today: Today, rules: Rules, prior: Admission, sha: Digest, t: Trial, digest: Digest,
                              assets: Option<Digest>)
    requires Validate(today, rules, prior, prior.source, prior.mode == SyntheticMode, true) == None
    requires t in Trials(rules, RosterOf(prior))
    requires rules.digest64(digest)
    requires t.model < |rules.roster(RosterOf(prior))|
    requires today.assetsFine(assets, Native(rules, rules.roster(RosterOf(prior))[t.model]))
    ensures rules.roster(RosterOf(prior))[t.model] in prior.profiles
       <==> exists a :: Corrects(today, rules, a, sha, prior) && t in a.selected
  {
    hide Validate;
    AssignmentsMembers(|rules.roster(RosterOf(prior))|, rules.configurations, t);
    if rules.roster(RosterOf(prior))[t.model] in prior.profiles {
      CorrectionOfIsAccepted(today, rules, prior, sha, t, digest, assets);
      var a := CorrectionOf(today, rules, prior, sha, t, digest, assets);
      assert t in a.selected;
    }
    if a :| Corrects(today, rules, a, sha, prior) && t in a.selected {
      CorrectedModelIsPriced(today, rules, a, sha, prior, t);
    }
  }

  lemma CorrectedModelIsPriced(today: Today, rules: Rules, a: Admission, sha: Digest, prior: Admission, t: Trial)
    requires Corrects(today, rules, a, sha, prior) && t in a.selected
    requires t.model < |rules.roster(RosterOf(prior))|
    ensures rules.roster(RosterOf(prior))[t.model] in prior.profiles
  {
    var synthetic := prior.mode == SyntheticMode;
    CorrectionAcceptedIff(today, rules, a, sha, synthetic, false);
    hide Validate, OperationFine, AssetsFine, SelectionOk;
    assert rules.roster(RosterOf(a))[t.model] in SelectedModels(rules, RosterOf(a), a.selected);
  }

  /** A roster trial whose model the original priced. */
  predicate OfPricedModel(rules: Rules, prior: Admission, t: Trial) {
    && t in Trials(rules, RosterOf(prior)) && t.model < |rules.roster(RosterOf(prior))|
    && rules.roster(RosterOf(prior))[t.model] in prior.profiles
  }

  /**
   So every accepted correction keeps to the original's own trials exactly when the original
   selected every roster trial of each model it priced. Otherwise the later comparison of the
   correction's trials with the original claim has to refuse it.
   */
  lemma CorrectionsKeepToOriginalIff(today: Today, rules: Rules, prior: Admission, sha: Digest, digest: Digest,
                                     assets: bool -> Option<Digest>)
    requires Validate(today, rules, prior, prior.source, prior.mode == SyntheticMode, true) == None
    requires rules.digest64(digest) && forall native :: today.assetsFine(assets(native), native)
    ensures (forall a, t :: Corrects(today, rules, a, sha, prior) && t in a.selected ==> t in prior.selected)
       <==> forall t :: OfPricedModel(rules, prior, t) ==> t in prior.selected
  {
    hide Validate, Corrects, Trials;
    var roster := rules.roster(RosterOf(prior));
    if forall a, t :: Corrects(today, rules, a, sha, prior) && t in a.selected ==> t in prior.selected {
      forall t | OfPricedModel(rules, prior, t) ensures t in prior.selected {
        TrialIsCorrectableIff(today, rules, prior, sha, t, digest, assets(Native(rules, roster[t.model])));
      }
    }
    if forall t :: OfPricedModel(rules, prior, t) ==> t in prior.selected {
      forall a, t | Corrects(today, rules, a, sha, prior) && t in a.selected ensures t in prior.selected {
        CorrectedTrialInRoster(today, rules, a, sha, prior, t);
        CorrectedModelIsPriced(today, rules, a, sha, prior, t);
      }
    }
  }

  lemma CorrectedTrialInRoster(today: Today, rules: Rules, a: Admission, sha: Digest, prior: Admission, t: Trial)
    requires Corrects(today, rules, a, sha, prior) && t in a.selected
    ensures t in Trials(rules, RosterOf(prior)) && t.model < |rules.roster(RosterOf(prior))|
  {
    CorrectionAcceptedIff(today, rules, a, sha, prior.mode == SyntheticMode, false);
    AssignmentsMembers(|rules.roster(RosterOf(prior))|, rules.configurations, t);
    hide Validate, OperationFine, AssetsFine, SelectedModels, Assignments, Kept;
  }
}
