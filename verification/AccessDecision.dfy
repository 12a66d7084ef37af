/** The access decision, made once per request and once for the whole settings page, and the named access profiles. */
module AccessDecision {
  import opened Options

  /** The listed features, and any other slug a permission row may carry. */
  datatype Feature =
    | Servers | Dashboard | Agents | Studio | StudioPipelines | StudioRuns | StudioAgents | StudioSkills | StudioMcp
    | StudioNotifications | Kubernetes | KubernetesAdminRead | KubernetesAdminWrite | KubernetesBreakGlass
    | KubernetesSecretRead | Mars | Settings | Orchestrator | KnowledgeBase | WebResearch
    | Unlisted(slug: string)

  type Permissions = map<Feature, bool>

  const FEATURES: seq<Feature> :=
    [Servers, Dashboard, Agents, Studio, StudioPipelines, StudioRuns, StudioAgents, StudioSkills, StudioMcp,
     StudioNotifications, Kubernetes, KubernetesAdminRead, KubernetesAdminWrite, KubernetesBreakGlass,
     KubernetesSecretRead, Mars, Settings, Orchestrator, KnowledgeBase, WebResearch]

  predicate DefaultAllowed(feature: Feature) {
    feature.Servers? || feature.Agents? || feature.Dashboard?
  }

  predicate ExplicitOptIn(feature: Feature) {
    || feature.Kubernetes? || feature.KubernetesAdminRead? || feature.KubernetesAdminWrite? ||
      feature.KubernetesBreakGlass?
    || feature.KubernetesSecretRead? || feature.Mars? || feature.WebResearch?
  }

  datatype User = User(authenticated: bool, staff: bool)

  datatype Source =
    | StaffRequired | UserExplicit | GroupExplicit | LegacyUser(feature: Feature) | LegacyGroup(feature: Feature)
    | OptIn | StaffDefault | SettingsOptIn | DefaultAllow | DefaultDeny

  function Legacy(feature: Feature): seq<Feature> {
    if feature.StudioPipelines? || feature.StudioRuns? then [Studio, Agents]
    else if feature.StudioAgents? then [Agents]
    else []
  }

  // ---------- What the decision means ----------

  /** Who has the say on a feature: the user's own row, or else the groups. */
  function Say(feature: Feature, explicit: Permissions, grouped: Permissions): Option<bool> {
    if feature in explicit then Some(explicit[feature])
    else if feature in grouped then Some(grouped[feature])
    else None
  }

  /** The first of the candidates that somebody has a say on. */
  function FirstSay(candidates: seq<Feature>, explicit: Permissions, grouped: Permissions): Option<bool> {
    if candidates == [] then None
    else if Say(candidates[0], explicit, grouped).Some? then Say(candidates[0], explicit, grouped)
    else FirstSay(candidates[1..], explicit, grouped)
  }

  /** What is said on a feature or, if nothing is, on the older ones. */
  function Said(feature: Feature, explicit: Permissions, grouped: Permissions): Option<bool> {
    var said := Say(feature, explicit, grouped);
    if said.Some? then said else FirstSay(Legacy(feature), explicit, grouped)
  }

  function Default(staff: bool, feature: Feature): bool {
    !ExplicitOptIn(feature) && (staff || DefaultAllowed(feature))
  }

  /** The decision for an authenticated user. */
  function Decision(staff: bool, feature: Feature, explicit: Permissions, grouped: Permissions,
                    staffOnly: set<Feature>): bool {
    if feature in staffOnly && !staff then false
    else
      var said := Said(feature, explicit, grouped);
      if said.Some? then said.value else Default(staff, feature)
  }

  // ---------- The two deciders ----------

  /** `feature_allowed_for_user`. */
  method FeatureAllowedForUser(user: User, feature: Feature, explicit: Permissions, grouped: Permissions,
                               staffOnly: set<Feature>)
    returns (allowed: bool)
    ensures allowed == (user.authenticated && Decision(user.staff, feature, explicit, grouped, staffOnly))
  {
    if !user.authenticated {
      return false;
    }
    if feature in staffOnly && !user.staff {
      return false;
    }
    if feature in explicit {
      return explicit[feature];
    }
    if feature in grouped {
      return grouped[feature];
    }
    var inherited := Inherit(feature, explicit, grouped);
    if inherited.Some? {
      return inherited.value;
    }
    allowed := AllowedByDefault(user.staff, feature);
  }

  /** Its loop over the older features that `feature` inherits from. */
  method Inherit(feature: Feature, explicit: Permissions, grouped: Permissions) returns (said: Option<bool>)
    ensures said == FirstSay(Legacy(feature), explicit, grouped)
  {
    var candidates := Legacy(feature);
    for i := 0 to |candidates|
      invariant FirstSay(candidates, explicit, grouped) == FirstSay(candidates[i..], explicit, grouped)
    {
      if candidates[i] in explicit {
        return Some(explicit[candidates[i]]);
      }
      if candidates[i] in grouped {
        return Some(grouped[candidates[i]]);
      }
    }
    return None;
  }

  /** And its end, where nobody has a say. */
  method AllowedByDefault(staff: bool, feature: Feature) returns (allowed: bool)
    ensures allowed == Default(staff, feature)
  {
    if ExplicitOptIn(feature) {
      return false;
    }
    if staff {
      return true;
    }
    if feature.Settings? {
      return false;
    }
    return DefaultAllowed(feature);
  }

  /** Whether a recorded source explains what is said on a feature. */
  predicate ExplainsSaid(source: Source, allowed: bool, feature: Feature, explicit: Permissions, grouped: Permissions) {
    match source
    case UserExplicit => feature in explicit && allowed == explicit[feature]
    case GroupExplicit => feature !in explicit && feature in grouped && allowed == grouped[feature]
    case LegacyUser(other) => other in Legacy(feature) && other in explicit && allowed == explicit[other]
    case LegacyGroup(other) => other in Legacy(feature) && other !in explicit && other in grouped &&
      allowed == grouped[other]
    case _ => false
  }

  /** The same where nobody has a say. */
  predicate ExplainsDefault(source: Source, allowed: bool, staff: bool, feature: Feature) {
    match source
    case OptIn => ExplicitOptIn(feature) && !allowed
    case StaffDefault => staff && allowed
    case SettingsOptIn => feature.Settings? && !staff && !allowed
    case DefaultAllow => DefaultAllowed(feature) && !staff && allowed
    case DefaultDeny => !DefaultAllowed(feature) && !staff && !allowed
    case _ => false
  }

  predicate Explains(source: Source, allowed: bool, user: User, feature: Feature, explicit: Permissions,
                     grouped: Permissions,
                     staffOnly: set<Feature>) {
    if source.StaffRequired? then feature in staffOnly && !user.staff && !allowed
    else if Said(feature, explicit, grouped).Some? then ExplainsSaid(source, allowed, feature, explicit, grouped)
    else ExplainsDefault(source, allowed, user.staff, feature)
  }

  /** Which row on an older feature has the say: the one named first that has a row, and there the user's own. */
  predicate NamesOlder(source: Source, feature: Feature, explicit: Permissions, grouped: Permissions) {
    match feature
    case StudioAgents => source == if Agents in explicit then LegacyUser(Agents) else LegacyGroup(Agents)
    case _ =>
      source == if Studio in explicit then LegacyUser(Studio)
                else if Studio in grouped then LegacyGroup(Studio)
                else if Agents in explicit then LegacyUser(Agents)
                else LegacyGroup(Agents)
  }

  /** There is a row on one of the older features. */
  predicate HasOlder(feature: Feature, explicit: Permissions, grouped: Permissions) {
    match feature
    case StudioAgents => Agents in explicit || Agents in grouped
    case StudioPipelines => Studio in explicit || Studio in grouped || Agents in explicit || Agents in grouped
    case StudioRuns => Studio in explicit || Studio in grouped || Agents in explicit || Agents in grouped
    case _ => false
  }

  /** The source that is recorded where there is no row at all. */
  predicate NamesDefault(source: Source, staff: bool, feature: Feature) {
    match feature
    case Kubernetes => source.OptIn?
    case KubernetesAdminRead => source.OptIn?
    case KubernetesAdminWrite => source.OptIn?
    case KubernetesBreakGlass => source.OptIn?
    case KubernetesSecretRead => source.OptIn?
    case Mars => source.OptIn?
    case WebResearch => source.OptIn?
    case Servers => if staff then source.StaffDefault? else source.DefaultAllow?
    case Dashboard => if staff then source.StaffDefault? else source.DefaultAllow?
    case Agents => if staff then source.StaffDefault? else source.DefaultAllow?
    case Settings => if staff then source.StaffDefault? else source.SettingsOptIn?
    case _ => if staff then source.StaffDefault? else source.DefaultDeny?
  }

  /** The source that is recorded for a decision, in all cases. */
  predicate Names(source: Source, staff: bool, feature: Feature, explicit: Permissions, grouped: Permissions,
                  staffOnly: set<Feature>) {
    if feature in staffOnly && !staff then source.StaffRequired?
    else if feature in explicit then source.UserExplicit?
    else if feature in grouped then source.GroupExplicit?
    else if HasOlder(feature, explicit, grouped) then NamesOlder(source, feature, explicit, grouped)
    else NamesDefault(source, staff, feature)
  }

  /** `build_user_access_payload`, its two dictionaries. */
  method BuildEffective(features: seq<Feature>, user: User, explicit: Permissions, grouped: Permissions,
                        staffOnly: set<Feature>)
    returns (effective: Permissions, sources: map<Feature, Source>)
    ensures forall f :: f in effective <==> f in features
    ensures forall f :: f in sources <==> f in features
    ensures forall f :: f in features ==> effective[f] == Decision(user.staff, f, explicit, grouped, staffOnly)
    ensures forall f :: f in features ==> Explains(sources[f], effective[f], user, f, explicit, grouped, staffOnly)
    ensures forall f :: f in features ==> Names(sources[f], user.staff, f, explicit, grouped, staffOnly)
  {
    effective, sources := map[], map[];
    for i := 0 to |features|
      invariant forall f :: f in effective <==> f in features[..i]
      invariant forall f :: f in sources <==> f in features[..i]
      invariant forall f :: f in features[..i] ==> effective[f] == Decision(user.staff, f, explicit, grouped, staffOnly)
      invariant forall f :: f in features[..i] ==>
                Explains(sources[f], effective[f], user, f, explicit, grouped, staffOnly)
      invariant forall f :: f in features[..i] ==> Names(sources[f], user.staff, f, explicit, grouped, staffOnly)
    {
      var allowed, source := DecideWithSource(user, features[i], explicit, grouped, staffOnly);
      assert features[..i + 1] == features[..i] + [features[i]];
      effective, sources := effective[features[i] := allowed], sources[features[i] := source];
    }
    assert features[..|features|] == features;
  }

  /** The body of its loop over the features. */
  method DecideWithSource(user: User, feature: Feature, explicit: Permissions, grouped: Permissions,
                          staffOnly: set<Feature>)
    returns (allowed: bool, source: Source)
    ensures allowed == Decision(user.staff, feature, explicit, grouped, staffOnly)
    ensures Explains(source, allowed, user, feature, explicit, grouped, staffOnly)
    ensures Names(source, user.staff, feature, explicit, grouped, staffOnly)
  {
    if feature in staffOnly && !user.staff {
      return false, StaffRequired;
    }
    var said;
    said, source := SaidWithSource(feature, explicit, grouped);
    if said.Some? {
      return said.value, source;
    }
    allowed, source := DefaultWithSource(user.staff, feature);
  }

  /** Its middle: the user's row, the groups, the older features. */
  method SaidWithSource(feature: Feature, explicit: Permissions, grouped: Permissions)
    returns (said: Option<bool>, source: Source)
    ensures said == Said(feature, explicit, grouped)
    ensures said.Some? ==> ExplainsSaid(source, said.value, feature, explicit, grouped)
    ensures said.Some? <==> feature in explicit || feature in grouped || HasOlder(feature, explicit, grouped)
    ensures said.Some? ==>
              if feature in explicit then source.UserExplicit?
              else if feature in grouped then source.GroupExplicit?
              else NamesOlder(source, feature, explicit, grouped)
  {
    if feature in explicit {
      return Some(explicit[feature]), UserExplicit;
    } else if feature in grouped {
      return Some(grouped[feature]), GroupExplicit;
    }
    said, source := InheritWithSource(feature, explicit, grouped);
  }

  /** Its end, where nobody has a say. */
  method DefaultWithSource(staff: bool, feature: Feature) returns (allowed: bool, source: Source)
    ensures allowed == Default(staff, feature) && ExplainsDefault(source, allowed, staff, feature)
    ensures NamesDefault(source, staff, feature)
  {
    if ExplicitOptIn(feature) {
      return false, OptIn;
    }
    if staff {
      return true, StaffDefault;
    } else if feature.Settings? {
      return false, SettingsOptIn;
    }
    allowed := DefaultAllowed(feature);
    source := if allowed then DefaultAllow else DefaultDeny;
  }

  /** Its loop over the older features that `feature` inherits from: what the first row found says, and which row. */
  method InheritWithSource(feature: Feature, explicit: Permissions, grouped: Permissions)
    returns (said: Option<bool>, source: Source)
    ensures said == FirstSay(Legacy(feature), explicit, grouped)
    ensures said.Some? ==> (source.LegacyUser? || source.LegacyGroup?) && source.feature in Legacy(feature)
    ensures said.Some? && source.LegacyUser? ==> source.feature in explicit && said.value == explicit[source.feature]
    ensures said.Some? && source.LegacyGroup? ==>
              source.feature !in explicit && source.feature in grouped && said.value == grouped[source.feature]
    ensures said.Some? <==> HasOlder(feature, explicit, grouped)
    ensures said.Some? ==> NamesOlder(source, feature, explicit, grouped)
  {
    var legacyFeatures := Legacy(feature);
    said, source := None, DefaultDeny;
    var i := 0;
    while i < |legacyFeatures|
      invariant i <= |legacyFeatures| && said.None?
      invariant forall j :: 0 <= j < i ==> legacyFeatures[j] !in explicit && legacyFeatures[j] !in grouped
      invariant FirstSay(legacyFeatures, explicit, grouped) == FirstSay(legacyFeatures[i..], explicit, grouped)
    {
      var legacyFeature := legacyFeatures[i];
      if legacyFeature in explicit {
        said, source := Some(explicit[legacyFeature]), LegacyUser(legacyFeature);
        break;
      }
      if legacyFeature in grouped {
        said, source := Some(grouped[legacyFeature]), LegacyGroup(legacyFeature);
        break;
      }
      i := i + 1;
    }
  }

  // ---------- Groups ----------

  /** A feature's groups: a denial wins, and no group at all leaves the feature unsaid. */
  ghost predicate Summarises(summary: Permissions, sources: map<Feature, seq<bool>>) {
    && (forall f :: f in summary <==> f in sources && sources[f] != [])
    && (forall f :: f in summary ==> (summary[f] <==> false !in sources[f]))
  }

  /** `summarize_group_permissions`. */
  method SummarizeGroupPermissions(sources: map<Feature, seq<bool>>) returns (summary: Permissions)
    ensures Summarises(summary, sources)
  {
    summary := map[];
    var rest := sources.Keys;
    while rest != {}
      invariant rest <= sources.Keys
      invariant forall f :: f in summary <==> f in sources && f !in rest && sources[f] != []
      invariant forall f :: f in summary ==> (summary[f] <==> false !in sources[f])
      decreases |rest|
    {
      var feature :| feature in rest;
      rest := rest - {feature};
      var values := sources[feature];
      assert values != [] ==> if values[0] then true in values else false in values;
      if false in values {
        summary := summary[feature := false];
      } else if true in values {
        summary := summary[feature := true];
      }
    }
  }

  lemma SummaryIsUnique(a: Permissions, b: Permissions, sources: map<Feature, seq<bool>>)
    requires Summarises(a, sources) && Summarises(b, sources)
    ensures a == b
  {
    assert forall f :: f in a <==> f in b;
    assert forall f :: f in a ==> a[f] == b[f];
  }

  /** Both deciders, run on the same user and the same rows, agree on every listed feature. */
  method DecidersAgree(user: User, feature: Feature, explicit: Permissions, groups: map<Feature, seq<bool>>,
                       staffOnly: set<Feature>)
    returns (single: bool, effective: Permissions)
    requires user.authenticated && feature in FEATURES
    ensures feature in effective && single == effective[feature]
  {
    var grouped := SummarizeGroupPermissions(groups);
    single := FeatureAllowedForUser(user, feature, explicit, grouped, staffOnly);
    var summary := SummarizeGroupPermissions(groups);
    SummaryIsUnique(grouped, summary, groups);
    var sources;
    effective, sources := BuildEffective(FEATURES, user, explicit, summary, staffOnly);
  }

  // ---------- What rows can do ----------

  /**
    Who decides: a staff-only feature is closed to others; else the user's own row, the groups, and for three features
    of the studio the rows on the older ones, each the user's own before the groups'.
   */
  lemma WhoDecides(staff: bool, feature: Feature, explicit: Permissions, grouped: Permissions, staffOnly: set<Feature>)
    ensures var allowed := Decision(staff, feature, explicit, grouped, staffOnly);
            if feature in staffOnly && !staff then !allowed
            else if feature in explicit then allowed == explicit[feature]
            else if feature in grouped then allowed == grouped[feature]
            else if (feature.StudioPipelines? || feature.StudioRuns?) && Studio in explicit
            then allowed == explicit[Studio]
            else if (feature.StudioPipelines? || feature.StudioRuns?) && Studio in grouped
            then allowed == grouped[Studio]
            else if (feature.StudioPipelines? || feature.StudioRuns? || feature.StudioAgents?) && Agents in explicit
            then allowed == explicit[Agents]
            else if (feature.StudioPipelines? || feature.StudioRuns? || feature.StudioAgents?) && Agents in grouped
            then allowed == grouped[Agents]
            else allowed == DefaultRule(staff, feature)
  {
    FirstOfTwo(Studio, Agents, explicit, grouped);
  }

  lemma FirstOfTwo(a: Feature, b: Feature, explicit: Permissions, grouped: Permissions)
    ensures FirstSay([b], explicit, grouped) == Say(b, explicit, grouped)
    ensures FirstSay([a, b], explicit, grouped) ==
            if Say(a, explicit, grouped).Some? then Say(a, explicit, grouped) else Say(b, explicit, grouped)
  {
    assert [a, b][1..] == [b] && [b][1..] == [];
  }

  /** What holds without any row: seven features are for nobody, three for everybody, and all others for staff. */
  predicate DefaultRule(staff: bool, feature: Feature) {
    match feature
    case Kubernetes => false
    case KubernetesAdminRead => false
    case KubernetesAdminWrite => false
    case KubernetesBreakGlass => false
    case KubernetesSecretRead => false
    case Mars => false
    case WebResearch => false
    case Servers => true
    case Dashboard => true
    case Agents => true
    case _ => staff
  }

  lemma {:induction false} FirstSayGrows(candidates: seq<Feature>, explicit: Permissions, grouped: Permissions,
                                         f: Feature, value: bool)
    ensures var before, after := FirstSay(candidates, explicit, grouped),
            FirstSay(candidates, explicit[f := value], grouped);
            after == before || after == Some(value)
  {
    if candidates != [] {
      FirstSayGrows(candidates[1..], explicit, grouped, f, value);
    }
  }

  lemma DecisionGrows(staff: bool, feature: Feature, explicit: Permissions, grouped: Permissions,
                      staffOnly: set<Feature>,
                      f: Feature, value: bool)
    ensures var before, after := Decision(staff, feature, explicit, grouped, staffOnly),
                                 Decision(staff, feature, explicit[f := value], grouped, staffOnly);
            after == before || after == value
  {
    var candidates := Legacy(feature);
    FirstSayGrows(candidates, explicit, grouped, f, value);
    assert Legacy(feature) == candidates;
  }

  /** Granting a feature never takes another one away, and denying one never gives another. */
  lemma RowsAreMonotone(staff: bool, feature: Feature, explicit: Permissions, grouped: Permissions,
                        staffOnly: set<Feature>, f: Feature)
    ensures Decision(staff, feature, explicit, grouped, staffOnly) ==>
            Decision(staff, feature, explicit[f := true], grouped, staffOnly)
    ensures Decision(staff, feature, explicit[f := false], grouped, staffOnly) ==>
            Decision(staff, feature, explicit, grouped, staffOnly)
  {
    DecisionGrows(staff, feature, explicit, grouped, staffOnly, f, true);
    DecisionGrows(staff, feature, explicit, grouped, staffOnly, f, false);
  }

  /** An opt-in feature is open to nobody, staff included, without a row that grants it. */
  lemma OptInNeedsGrant(staff: bool, feature: Feature, explicit: Permissions, grouped: Permissions,
                        staffOnly: set<Feature>)
    requires ExplicitOptIn(feature) && Decision(staff, feature, explicit, grouped, staffOnly)
    ensures Say(feature, explicit, grouped) == Some(true)
  {
    assert Legacy(feature) == [];
  }
}
