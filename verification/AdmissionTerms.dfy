/** The terms of admission, written out: exactly which admissions are accepted, standing alone or as a correction. */
module AdmissionTerms {
  import opened Wrappers
  import opened Roster
  import opened Admissions

  /** A roster and a reasoning mode the ordinary validation knows. */
  predicate Ordinary(a: Admission) {
    && (a.rosterProfile == None || a.modeProfile == Some(OffOrMinimum))
    && a.rosterProfile in {None, Some(Latest), Some(Meta), Some(SelectedSix), Some(November)}
    && a.modeProfile in {None, Some(OffOrMinimum)}
  }

  predicate ForMode(a: Admission, synthetic: bool) {
    if synthetic then !a.approved && a.mode == SyntheticMode else a.approved && a.mode == PaidMode
  }

  predicate Gates(rules: Rules, a: Admission) {
    rules.identifier(a.campaign) && rules.identifier(a.attempt) && a.gatesPassed && a.noInterveningSpend
  }

  /** A fixed cap, or accepted limits of this source and of the roster's kind in its place. */
  predicate Capped(rules: Rules, a: Admission, source: Digest) {
    match a.limits
    case None => a.cap == Some(if a.rosterProfile == Some(Meta) then "990" else "1000")
    case Some(l) =>
      && a.cap == None
      && l.mode == (if a.rosterProfile == Some(Meta) then MetaUncapped else OptionalLimits)
      && l.ownerAccepted && l.source == source && rules.limitsWellFormed(l)
  }

  /** What an ordinary admission has to get right apart from its installation, its operation and its assets. */
  ghost predicate Terms(rules: Rules, a: Admission, sha: Digest, synthetic: bool, pricing: Registry, source: Digest) {
    && Ordinary(a) && ForMode(a, synthetic) && a.source == sha && Gates(rules, a) && Capped(rules, a, source)
    && OrderedTrials(rules, RosterOf(a), a.selected)
    && PricedModels(rules, RosterOf(a), a) && PricesBound(rules, a, pricing, source)
  }

  /** Each model's settings are fine, run under the admission's money policy, and bind their prices to this source. */
  predicate PricesBound(rules: Rules, a: Admission, pricing: Registry, source: Digest) {
    forall m :: m in a.profiles ==>
      && rules.profileFine(a.profiles[m], m, RosterOf(a))
      && (a.limits.Some? <==>
            a.profiles[m].execution == Some(if a.rosterProfile == Some(Meta) then MetaUncapped else OptionalLimits))
      && (a.profiles[m].owner.Some? ==>
            && a.profiles[m].owner.value.source == source
            && m in pricing && a.profiles[m].owner.value.registryEntry == pricing[m])
  }

  /** Trials of the roster, at least one, in roster order and none twice. */
  ghost predicate OrderedTrials(rules: Rules, p: Profile, selected: seq<Trial>) {
    selected != [] && Distinct(selected) && Subsequence(selected, Trials(rules, p))
  }

  ghost predicate Chosen(rules: Rules, p: Profile, selected: seq<Trial>, m: Model) {
    exists t :: t in selected && t.model < |rules.roster(p)| && rules.roster(p)[t.model] == m
  }

  /** The models priced are those of the chosen trials. */
  ghost predicate PricedModels(rules: Rules, p: Profile, a: Admission) {
    forall m :: m in a.profiles <==> Chosen(rules, p, a.selected, m)
  }

  /** Some chosen trial runs a model with native assets. */
  ghost predicate ChoosesNative(rules: Rules, a: Admission) {
    exists m :: Chosen(rules, RosterOf(a), a.selected, m) && rules.usesNativeAssets(m)
  }

  predicate Continues(rules: Rules, a: Admission) {
    && a.originalClaim.Some? && rules.digest64(a.originalClaim.value)
    && a.journal.Some? && rules.digest64(a.journal.value)
  }

  /** What each operation brings: nothing borrowed, an ordered rest, or a confirmed fix for each trial. */
  ghost predicate OperationTerms(rules: Rules, a: Admission) {
    match a.operation
    case Initial => a.originalClaim == None && a.journal == None && a.pending == a.selected && a.corrections == map[]
    case Resume => Continues(rules, a) && Subsequence(a.pending, a.selected) && a.corrections == map[]
    case Correction =>
      && Continues(rules, a) && a.pending == []
      && (forall t :: t in a.corrections <==> t in a.selected)
      && forall t :: t in a.corrections ==>
           a.corrections[t].technicalReason && rules.digest64(a.corrections[t].evidence)
    case OtherOperation => false
  }

  // ------------------------------------------------------------ the terms against the checks

  lemma TrialsOrdered(rules: Rules, p: Profile, selected: seq<Trial>)
    ensures SelectionOk(Trials(rules, p), selected) <==> OrderedTrials(rules, p, selected)
  {
    AssignmentsDistinct(|rules.roster(p)|, rules.configurations);
    hide SelectionOk, Subsequence, Assignments, Distinct;
    SelectionIffOrdered(Trials(rules, p), selected);
  }

  lemma ModelsChosen(rules: Rules, p: Profile, a: Admission)
    ensures forall m :: m in SelectedModels(rules, p, a.selected) <==> Chosen(rules, p, a.selected, m)
    ensures a.profiles.Keys == SelectedModels(rules, p, a.selected) <==> PricedModels(rules, p, a)
  {
    var models := SelectedModels(rules, p, a.selected);
    forall m ensures m in models <==> Chosen(rules, p, a.selected, m) {
      if Chosen(rules, p, a.selected, m) {
        var t :| t in a.selected && t.model < |rules.roster(p)| && rules.roster(p)[t.model] == m;
        assert rules.roster(p)[t.model] in models;
      }
    }
    hide Chosen, SelectedModels;
    if PricedModels(rules, p, a) { assert a.profiles.Keys == models; }
  }

  lemma NativeChosen(rules: Rules, a: Admission)
    ensures ChoosesNative(rules, a) <==>
              exists m :: m in SelectedModels(rules, RosterOf(a), a.selected) && rules.usesNativeAssets(m)
  {
    ModelsChosen(rules, RosterOf(a), a);
    hide Chosen, SelectedModels;
    if m :| m in SelectedModels(rules, RosterOf(a), a.selected) && rules.usesNativeAssets(m) {
      assert Chosen(rules, RosterOf(a), a.selected, m);
    }
    if m :| Chosen(rules, RosterOf(a), a.selected, m) && rules.usesNativeAssets(m) {
      assert m in SelectedModels(rules, RosterOf(a), a.selected);
    }
  }

  lemma PendingKept(selected: seq<Trial>, pending: seq<Trial>)
    requires Distinct(selected)
    ensures PendingOk(selected, pending) <==> Subsequence(pending, selected)
    ensures PendingOk(selected, selected) && PendingOk(selected, [])
  {
    KeptIffSubsequence(pending, selected);
    KeptIffSubsequence(selected, selected);
    KeptIffSubsequence([], selected);
    hide Kept, Distinct;
    var none: seq<Trial>, nowhere: seq<nat> := [], [];
    assert Picks(none, selected, nowhere);
    var all: seq<nat> := seq(|selected|, k requires 0 <= k < |selected| => k);
    assert Picks(selected, selected, all);
  }

  lemma FixedTrials(a: Admission)
    ensures a.corrections.Keys == (set t | t in a.selected) <==> forall t :: t in a.corrections <==> t in a.selected
  {
    var trials := set t | t in a.selected;
    if forall t :: t in a.corrections <==> t in a.selected { assert a.corrections.Keys == trials; }
    if a.corrections.Keys == trials {
      forall t ensures t in a.corrections <==> t in a.selected { assert t in a.corrections.Keys <==> t in trials; }
    }
  }

  lemma OperationIff(rules: Rules, a: Admission)
    requires Distinct(a.selected)
    ensures OperationFine(rules, a) <==> OperationTerms(rules, a)
  {
    PendingKept(a.selected, a.pending);
    hide PendingOk, Subsequence, Distinct;
    match a.operation
    case Initial =>
    case Resume =>
    case Correction => CorrectionIff(rules, a);
    case OtherOperation =>
  }

  lemma CorrectionIff(rules: Rules, a: Admission)
    requires a.operation.Correction? && PendingOk(a.selected, [])
    ensures OperationFine(rules, a) <==> OperationTerms(rules, a)
  {
    FixedTrials(a);
    hide PendingOk, Subsequence, Distinct;
    if OperationFine(rules, a) {
      assert a.pending == [] && a.corrections.Keys == (set t | t in a.selected);
      assert OperationTerms(rules, a);
    }
    if OperationTerms(rules, a) {
      assert PendingOk(a.selected, a.pending);
      assert OperationFine(rules, a);
    }
  }

  lemma CapIff(rules: Rules, a: Admission, source: Digest)
    requires Ordinary(a)
    ensures Capped(rules, a, source)
       <==> && CapFine(a)
            && (a.limits.Some? ==> LimitsFine(rules, a.limits.value, Expected(a)) && a.limits.value.source == source)
  {
  }

  lemma ProfilesIff(rules: Rules, a: Admission, pricing: Registry, source: Digest)
    requires Ordinary(a)
    ensures ProfilesFine(rules, a, pricing, source)
       <==> PricedModels(rules, RosterOf(a), a) && PricesBound(rules, a, pricing, source)
  {
    ModelsChosen(rules, RosterOf(a), a);
    hide SelectedModels, PricedModels;
  }

  lemma OrdinaryIff(a: Admission)
    requires a.rosterProfile != Some(Gemini)
    ensures Ordinary(a) <==> RosterAllowed(a) && !(a.modeProfile.Some? && a.modeProfile.value != OffOrMinimum)
  {
  }

  lemma ScopeIff(today: Today, rules: Rules, a: Admission, sha: Digest, synthetic: bool, historical: bool)
    ensures ScopeFine(today, rules, a, sha, synthetic, historical)
       <==> && ForMode(a, synthetic) && a.source == sha && Gates(rules, a) && CapFine(a)
            && (historical || Installed(today, a))
  {
    hide CapFine;
  }

  /** The tests of a standing admission, in terms. */
  lemma RestIff(today: Today, rules: Rules, a: Admission, sha: Digest, synthetic: bool, historical: bool,
                pricing: Registry, source: Digest)
    requires Ordinary(a)
    requires pricing == if a.correction.Some? then a.correction.value.original.registry else a.registry
    requires source == if a.correction.Some? then a.correction.value.originalSource else sha
    ensures ValidateRest(today, rules, a, sha, synthetic, historical) == None
       <==> && Terms(rules, a, sha, synthetic, pricing, source) && OperationTerms(rules, a)
            && (if historical then Recorded(rules, a) && rules.recordedAssetsFine(a.assets, ChoosesNative(rules, a))
                else Installed(today, a) && today.assetsFine(a.assets, ChoosesNative(rules, a)))
  {
    hide ScopeFine, ForMode, Gates, Installed, PricesBound, OrderedTrials, Recorded, RecordedIdentity, AssetsFine;
    hide SelectionOk, Trials, ProfilesFine, CapFine, LimitsFine, OperationFine, OperationTerms, SelectedModels;
    hide ChoosesNative, PricedModels, Ordinary, Subsequence, Distinct, Capped;
    TrialsOrdered(rules, RosterOf(a), a.selected);
    ProfilesIff(rules, a, pricing, source);
    CapIff(rules, a, source);
    AssetsIff(today, rules, a, historical);
    ScopeIff(today, rules, a, sha, synthetic, historical);
    RecordedIff(rules, a);
    if OrderedTrials(rules, RosterOf(a), a.selected) {
      OrderedDistinct(rules, RosterOf(a), a.selected);
      OperationIff(rules, a);
    }
  }

  lemma OrderedDistinct(rules: Rules, p: Profile, selected: seq<Trial>)
    requires OrderedTrials(rules, p, selected)
    ensures Distinct(selected)
  {
  }

  lemma RecordedIff(rules: Rules, a: Admission)
    ensures Recorded(rules, a) <==> RecordedIdentity(rules, a)
  {
  }

  lemma AssetsIff(today: Today, rules: Rules, a: Admission, historical: bool)
    ensures AssetsFine(today, rules, a, historical) ==
              if historical then rules.recordedAssetsFine(a.assets, ChoosesNative(rules, a))
              else today.assetsFine(a.assets, ChoosesNative(rules, a))
  {
    NativeChosen(rules, a);
    hide ChoosesNative, SelectedModels;
  }

  predicate Installed(today: Today, a: Admission) {
    a.runtime == today.runtime && a.registry == today.registry(RosterOf(a), a.modeProfile)
  }

  /** An installation recorded in full, for every model of the roster. */
  predicate Recorded(rules: Rules, a: Admission) {
    && rules.absolute(a.campaignRoot) && rules.absolute(a.custodyRoot) && rules.recordedRuntimeFine(a.runtime)
    && forall m :: m in rules.roster(RosterOf(a)) ==> m in a.registry
  }

  // ------------------------------------------------------------ exactly when

  /** An admission that stands alone, whatever its operation, is accepted exactly on these terms. */
  lemma StandaloneAcceptedIff(today: Today, rules: Rules, a: Admission, sha: Digest, synthetic: bool)
    requires a.correction.None? && a.rosterProfile != Some(Gemini)
    ensures Validate(today, rules, a, sha, synthetic, false) == None
       <==> && Terms(rules, a, sha, synthetic, a.registry, sha) && OperationTerms(rules, a)
            && Installed(today, a) && today.assetsFine(a.assets, ChoosesNative(rules, a))
  {
    OrdinaryIff(a);
    if Ordinary(a) { RestIff(today, rules, a, sha, synthetic, false, a.registry, sha); }
    hide ValidateRest, OperationTerms, ChoosesNative, RosterAllowed, Installed, Ordinary;
  }

  /** A historical original is accepted exactly as a plain initial admission on these terms, and recorded. */
  lemma HistoricalAcceptedIff(today: Today, rules: Rules, a: Admission, sha: Digest, synthetic: bool)
    ensures Validate(today, rules, a, sha, synthetic, true) == None
       <==> && a.rosterProfile != Some(Gemini) && a.correction == None && a.operation == Initial
            && Terms(rules, a, sha, synthetic, a.registry, sha) && OperationTerms(rules, a)
            && Recorded(rules, a) && rules.recordedAssetsFine(a.assets, ChoosesNative(rules, a))
  {
    if a.rosterProfile != Some(Gemini) {
      OrdinaryIff(a);
      if Ordinary(a) && a.correction.None? { RestIff(today, rules, a, sha, synthetic, true, a.registry, sha); }
    }
    hide ValidateRest, ValidateCorrection, OperationTerms, ChoosesNative, RosterAllowed, Recorded, Ordinary;
  }

  /** A Gemini admission is accepted exactly as an uncapped initial series under its own profiles. */
  lemma GeminiAcceptedIff(today: Today, rules: Rules, a: Admission, sha: Digest, synthetic: bool)
    requires a.rosterProfile == Some(Gemini)
    ensures Validate(today, rules, a, sha, synthetic, false) == None
       <==> && ForMode(a, synthetic) && a.source == sha && Gates(rules, a) && Installed(today, a)
            && a.modeProfile == Some(GeminiLow) && a.cap == None && a.correction == None
            && a.limits.Some? && a.limits.value.mode == GeminiUncapped && a.limits.value.ownerAccepted
            && a.limits.value.source == sha && rules.limitsWellFormed(a.limits.value)
            && a.operation == Initial && OperationTerms(rules, a) && a.assets == None
            && OrderedTrials(rules, Gemini, a.selected) && PricedModels(rules, Gemini, a)
            && (forall m :: m in a.profiles ==>
                  a.profiles[m] == rules.geminiProfile(m, if synthetic then SyntheticMode else PaidMode))
            && rules.absolute(a.campaignRoot) && rules.absolute(a.custodyRoot)
  {
    GeminiOrdered(rules, a.selected);
    ModelsChosen(rules, Gemini, a);
    hide SelectedModels, PricedModels, Trials, Kept, Subsequence, Distinct;
  }

  /** Equality with the filtered roster says no more and no less about a nonempty selection. */
  lemma GeminiOrdered(rules: Rules, selected: seq<Trial>)
    ensures selected != [] && selected == Kept(Trials(rules, Gemini), selected)
       <==> OrderedTrials(rules, Gemini, selected)
  {
    var ids := Trials(rules, Gemini);
    AssignmentsDistinct(|rules.roster(Gemini)|, rules.configurations);
    hide Kept, Assignments;
    KeptIffSubsequence(selected, ids);
    if Subsequence(selected, ids) { SubsequenceDistinct(selected, ids); }
  }

  /** The financial authority of the original, unchanged. */
  ghost predicate AuthorityKept(a: Admission, b: Binding) {
    var prior := b.original;
    && prior.source == b.originalSource
    && prior.campaign == a.campaign && prior.campaignRoot == a.campaignRoot && prior.custodyRoot == a.custodyRoot
    && prior.mode == a.mode && prior.cap == a.cap && prior.limits == a.limits
    && (if prior.rosterProfile == None then Legacy else prior.rosterProfile.value)
       == (if a.rosterProfile == None then Legacy else a.rosterProfile.value)
    && b.financialCap == a.cap && b.financialLimits == a.limits
    && forall m :: m in a.profiles ==> m in prior.profiles && prior.profiles[m] == a.profiles[m]
  }

  /** The owner agreed to this execution, for these trials' artifacts and no others. */
  ghost predicate Agreed(a: Admission, b: Binding, sha: Digest) {
    && b.closed && b.ownerAccepted && b.executionSource == sha && a.operation == Correction
    && forall t :: t in b.artifacts <==> t in a.selected
  }

  /** A bound correction is accepted exactly with consent, its artifacts, an accepted original and these terms. */
  lemma BoundCorrectionAcceptedIff(today: Today, rules: Rules, a: Admission, sha: Digest, synthetic: bool)
    requires a.correction.Some?
    ensures Validate(today, rules, a, sha, synthetic, false) == None
       <==> && a.rosterProfile != Some(Gemini) && Agreed(a, a.correction.value, sha)
            && Validate(today, rules, a.correction.value.original, a.correction.value.originalSource,
                        synthetic, true) == None
            && AuthorityKept(a, a.correction.value)
            && Terms(rules, a, sha, synthetic, a.correction.value.original.registry, a.correction.value.originalSource)
            && OperationTerms(rules, a)
            && Installed(today, a) && today.assetsFine(a.assets, ChoosesNative(rules, a))
  {
    var b := a.correction.value;
    RouteOfCorrection(today, rules, a, sha, synthetic, false);
    CorrectionStep(today, rules, a, sha);
    ArtifactsAre(a);
    if a.rosterProfile != Some(Gemini) {
      OrdinaryIff(a);
      if Ordinary(a) { RestIff(today, rules, a, sha, synthetic, false, b.original.registry, b.originalSource); }
    }
    assert ForMode(a, synthetic) ==> (a.mode == SyntheticMode) == synthetic;
    if Validate(today, rules, b.original, b.originalSource, synthetic, true) == None {
      AuthorityIff(today, rules, a, synthetic);
    }
    hide Validate, ValidateCorrection, ValidateRest, SameAuthority, AuthorityKept, OperationTerms, ChoosesNative;
    hide RosterAllowed, Installed, ForMode, Ordinary;
  }

  lemma ArtifactsAre(a: Admission)
    requires a.correction.Some?
    ensures a.correction.value.artifacts == (set t | t in a.selected)
       <==> forall t :: t in a.correction.value.artifacts <==> t in a.selected
  {
    var trials := set t | t in a.selected;
    if forall t :: t in a.correction.value.artifacts <==> t in a.selected {
      assert a.correction.value.artifacts == trials;
    }
    if a.correction.value.artifacts == trials {
      forall t ensures t in a.correction.value.artifacts <==> t in a.selected {
        assert t in a.correction.value.artifacts <==> t in trials;
      }
    }
  }

  lemma AuthorityIff(today: Today, rules: Rules, a: Admission, synthetic: bool)
    requires a.correction.Some?
    requires Validate(today, rules, a.correction.value.original, a.correction.value.originalSource,
                      synthetic, true) == None
    ensures SameAuthority(a) <==> AuthorityKept(a, a.correction.value)
  {
    var b := a.correction.value;
    HistoricalIsPlainInitial(today, rules, b.original, b.originalSource, synthetic);
    hide Validate, ValidateRest;
  }
}
