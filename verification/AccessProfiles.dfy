/** The named access profiles: what applying one does, and which one the settings page then reports. */
module AccessProfiles {
  import opened Options
  import opened AccessDecision

  datatype Profile =
    | PilotUser | ServerOnly | OperatorServerOnly | OperatorStudioRunner | TeamAdminNoSecrets | AdminFull
    | PlatformAdmin
    | ResetDefaults | Custom

  predicate Named(profile: Profile) {
    !profile.ResetDefaults? && !profile.Custom?
  }

  predicate Grants(profile: Profile, f: Feature) {
    match profile
    case PilotUser => f.Dashboard? || f.Servers? || f.Agents?
    case ServerOnly => f.Servers?
    case OperatorServerOnly => f.Servers?
    case OperatorStudioRunner =>
      f.Servers? || f.Dashboard? || f.Studio? || f.StudioPipelines? || f.StudioRuns? || f.StudioNotifications?
    case TeamAdminNoSecrets =>
      || f.Servers? || f.Dashboard? || f.Agents? || f.Studio? || f.StudioPipelines? || f.StudioRuns? || f.StudioAgents?
      || f.StudioSkills? || f.Orchestrator? || f.KnowledgeBase?
    case AdminFull => true
    case PlatformAdmin => true
    case _ => false
  }

  function ProfilePermissions(profile: Profile): (permissions: Permissions)
    ensures forall f :: f in permissions <==> f in FEATURES
    ensures forall f :: f in FEATURES ==> permissions[f] == Grants(profile, f)
  {
    map f | f in FEATURES :: Grants(profile, f)
  }

  predicate StaffFlag(profile: Profile) {
    profile.TeamAdminNoSecrets? || profile.AdminFull? || profile.PlatformAdmin?
  }

  class Account {
    var isStaff: bool
    var rows: Permissions

    /** `_apply_access_profile`; None stands for a name that is not a profile, and `valid` is false where it raises. */
    method ApplyAccessProfile(profile: Option<Profile>) returns (valid: bool)
      modifies this
      ensures valid == profile.Some?
      ensures !valid || profile.value.Custom? ==> isStaff == old(isStaff) && rows == old(rows)
      ensures valid && profile.value.ResetDefaults? ==> isStaff == old(isStaff) && rows == map[]
      ensures valid && Named(profile.value) ==>
                isStaff == StaffFlag(profile.value) && rows == old(rows) + ProfilePermissions(profile.value)
    {
      if profile.None? {
        return false;
      }
      if profile.value.Custom? {
        return true;
      }
      if profile.value.ResetDefaults? {
        rows := map[];
        return true;
      }
      var target, staffTarget := ProfilePermissions(profile.value), StaffFlag(profile.value);
      if isStaff != staffTarget {
        isStaff := staffTarget;
      }
      rows := rows + target;
      return true;
    }
  }

  // ---------- The reported profile ----------

  const REPORTABLE := [PilotUser, OperatorServerOnly, OperatorStudioRunner, TeamAdminNoSecrets, PlatformAdmin]

  predicate Matches(profile: Profile, staff: bool, effective: Permissions) {
    staff == StaffFlag(profile) && effective == ProfilePermissions(profile)
  }

  predicate OnlyServers(effective: Permissions) {
    Servers in effective && effective[Servers] && forall f <- effective :: !f.Servers? ==> !effective[f]
  }

  /** What the settings page reports, for each of its answers. */
  predicate Reports(profile: Profile, staff: bool, effective: Permissions) {
    match profile
    case Custom =>
      (forall p <- REPORTABLE :: !Matches(p, staff, effective)) && !OnlyServers(effective) &&
      !(staff && forall f <- effective :: effective[f])
    case ServerOnly => (forall p <- REPORTABLE :: !Matches(p, staff, effective)) && OnlyServers(effective)
    case AdminFull =>
      (forall p <- REPORTABLE :: !Matches(p, staff, effective)) && !OnlyServers(effective) &&
      staff && forall f <- effective :: effective[f]
    case _ => profile in REPORTABLE && Matches(profile, staff, effective)
  }

  /** The search at the end of `build_user_access_payload`. */
  method ReportProfile(staff: bool, effective: Permissions) returns (profile: Profile)
    ensures Reports(profile, staff, effective)
  {
    profile := Custom;
    for i := 0 to |REPORTABLE|
      invariant profile.Custom?
      invariant forall p <- REPORTABLE[..i] :: !Matches(p, staff, effective)
    {
      if staff == StaffFlag(REPORTABLE[i]) && effective == ProfilePermissions(REPORTABLE[i]) {
        profile := REPORTABLE[i];
        break;
      }
    }
    if !profile.Custom? {
    } else if OnlyServers(effective) {
      profile := ServerOnly;
    } else if staff && forall f <- effective :: effective[f] {
      profile := AdminFull;
    }
  }

  /** Every feature with a constructor of its own is listed, and nothing else. */
  lemma Listed(f: Feature)
    ensures f in FEATURES <==> !f.Unlisted?
  {
    assert FEATURES[0].Servers? && FEATURES[1].Dashboard? && FEATURES[2].Agents? && FEATURES[3].Studio?;
    assert FEATURES[4].StudioPipelines? && FEATURES[5].StudioRuns? && FEATURES[6].StudioAgents? &&
           FEATURES[7].StudioSkills?;
    assert FEATURES[8].StudioMcp? && FEATURES[9].StudioNotifications? && FEATURES[10].Kubernetes?;
    assert FEATURES[11].KubernetesAdminRead? && FEATURES[12].KubernetesAdminWrite? &&
           FEATURES[13].KubernetesBreakGlass?;
    assert FEATURES[14].KubernetesSecretRead? && FEATURES[15].Mars? && FEATURES[16].Settings? &&
           FEATURES[17].Orchestrator?;
    assert FEATURES[18].KnowledgeBase? && FEATURES[19].WebResearch?;
  }

  /** Only the two full administrators get the features that need a grant of their own. */
  lemma OnlyAdministratorsOptIn(profile: Profile, f: Feature)
    requires Named(profile) && ExplicitOptIn(f)
    ensures Grants(profile, f) <==> profile.AdminFull? || profile.PlatformAdmin?
  {
  }

  /** Each profile by the listed features it grants. */
  lemma ProfileTable(f: Feature)
    requires f in FEATURES
    ensures Grants(PilotUser, f) <==> f in {Dashboard, Servers, Agents}
    ensures (Grants(ServerOnly, f) <==> f == Servers) && (Grants(OperatorServerOnly, f) <==> f == Servers)
    ensures Grants(OperatorStudioRunner, f) <==>
            f in {Servers, Dashboard, Studio, StudioPipelines, StudioRuns, StudioNotifications}
    ensures Grants(TeamAdminNoSecrets, f) <==>
            f in {Servers, Dashboard, Agents, Studio, StudioPipelines, StudioRuns, StudioAgents, StudioSkills,
                  Orchestrator, KnowledgeBase}
    ensures Grants(AdminFull, f) && Grants(PlatformAdmin, f)
  {
  }

  lemma StaffProfiles(profile: Profile)
    requires Named(profile)
    ensures StaffFlag(profile) <==> profile in {TeamAdminNoSecrets, AdminFull, PlatformAdmin}
  {
  }

  /** The profile under whose name the page reports a named profile. */
  function Canonical(profile: Profile): Profile {
    match profile
    case ServerOnly => OperatorServerOnly
    case AdminFull => PlatformAdmin
    case _ => profile
  }

  /** Three features and the staff flag tell the reportable profiles apart. */
  lemma GrantsDiffer(p: Profile, q: Profile)
    requires p in REPORTABLE && q in REPORTABLE && StaffFlag(p) == StaffFlag(q)
    requires Grants(p, Agents) == Grants(q, Agents) && Grants(p, Studio) == Grants(q, Studio)
    requires Grants(p, Mars) == Grants(q, Mars)
    ensures p == q
  {
  }

  /** Two reportable profiles never match the same account. */
  lemma MatchIsUnique(p: Profile, q: Profile, staff: bool, effective: Permissions)
    requires p in REPORTABLE && q in REPORTABLE && Matches(p, staff, effective) && Matches(q, staff, effective)
    ensures p == q
  {
    Listed(Agents);
    Listed(Studio);
    Listed(Mars);
    assert Grants(p, Agents) == effective[Agents] == Grants(q, Agents);
    assert Grants(p, Studio) == effective[Studio] == Grants(q, Studio);
    assert Grants(p, Mars) == effective[Mars] == Grants(q, Mars);
    GrantsDiffer(p, q);
  }

  /** The reported profile is determined by the account. */
  lemma ReportIsUnique(p: Profile, q: Profile, staff: bool, effective: Permissions)
    requires Reports(p, staff, effective) && Reports(q, staff, effective)
    ensures p == q
  {
    if p in REPORTABLE && q in REPORTABLE {
      MatchIsUnique(p, q, staff, effective);
    }
  }

  /** The permissions of an account, as either decider sees them. */
  ghost predicate IsEffective(effective: Permissions, staff: bool, rows: Permissions, grouped: Permissions,
                              staffOnly: set<Feature>) {
    && (forall f :: f in effective <==> f in FEATURES)
    && (forall f :: f in FEATURES ==> effective[f] == Decision(staff, f, rows, grouped, staffOnly))
  }

  /** The profile gives a non-staff account something that only staff may have. */
  ghost predicate Overreaches(profile: Profile, staffOnly: set<Feature>) {
    !StaffFlag(profile) && exists f :: f in FEATURES && f in staffOnly && Grants(profile, f)
  }

  /** Applying a named profile gives exactly its permissions, unless it grants staff-only features to non-staff. */
  lemma AppliedIsEffective(profile: Profile, rows: Permissions, grouped: Permissions, staffOnly: set<Feature>,
                           effective: Permissions)
    requires Named(profile)
    requires IsEffective(effective, StaffFlag(profile), rows + ProfilePermissions(profile), grouped, staffOnly)
    ensures effective == ProfilePermissions(profile) <==> !Overreaches(profile, staffOnly)
  {
    var staff, after := StaffFlag(profile), rows + ProfilePermissions(profile);
    assert forall f :: f in FEATURES ==> f in after && after[f] == Grants(profile, f);
    assert forall f :: f in FEATURES ==> effective[f] == (Grants(profile, f) && !(f in staffOnly && !staff));
    if !Overreaches(profile, staffOnly) {
      assert forall f :: f in FEATURES ==> effective[f] == ProfilePermissions(profile)[f];
    }
  }

  /** The round trip: after a named profile was applied, the page reports a profile with the same permissions and the
      same staff flag; it is the applied one except for the two profiles that have an equal under another name. */
  lemma ProfileRoundTrip(profile: Profile, rows: Permissions, grouped: Permissions, staffOnly: set<Feature>,
                         effective: Permissions, reported: Profile)
    requires Named(profile) && !Overreaches(profile, staffOnly)
    requires IsEffective(effective, StaffFlag(profile), rows + ProfilePermissions(profile), grouped, staffOnly)
    requires Reports(reported, StaffFlag(profile), effective)
    ensures reported == Canonical(profile)
    ensures StaffFlag(reported) == StaffFlag(profile) && ProfilePermissions(reported) == ProfilePermissions(profile)
  {
    AppliedIsEffective(profile, rows, grouped, staffOnly, effective);
    assert ProfilePermissions(Canonical(profile)) == ProfilePermissions(profile);
    assert Canonical(profile) == REPORTABLE[0] || Canonical(profile) == REPORTABLE[1] ||
           Canonical(profile) == REPORTABLE[2] ||
           Canonical(profile) == REPORTABLE[3] || Canonical(profile) == REPORTABLE[4];
    assert Reports(Canonical(profile), StaffFlag(profile), effective);
    ReportIsUnique(reported, Canonical(profile), StaffFlag(profile), effective);
  }

  lemma SamePermissions(profile: Profile, effective: Permissions)
    requires forall f :: f in effective <==> f in FEATURES
    requires forall f :: f in FEATURES ==> effective[f] == Grants(profile, f)
    ensures effective == ProfilePermissions(profile)
  {
  }

  /** `server_only` is reported exactly for staff with its permissions, although applying it takes the
      staff flag away. */
  lemma ServerOnlyIsStaff(staff: bool, effective: Permissions)
    requires forall f :: f in effective <==> f in FEATURES
    ensures Reports(ServerOnly, staff, effective) <==> staff && effective == ProfilePermissions(ServerOnly)
  {
    if Reports(ServerOnly, staff, effective) {
      SamePermissions(ServerOnly, effective);
      SamePermissions(OperatorServerOnly, effective);
      assert REPORTABLE[1] == OperatorServerOnly;
      assert !Matches(OperatorServerOnly, staff, effective);
    } else if staff && effective == ProfilePermissions(ServerOnly) {
      OnlyPlatformAdminIsStaff(effective);
    }
  }

  /** The one reportable profile with the staff flag grants more than servers. */
  lemma OnlyPlatformAdminIsStaff(effective: Permissions)
    requires effective == ProfilePermissions(ServerOnly)
    ensures forall p <- REPORTABLE :: !Matches(p, true, effective)
  {
    Listed(Agents);
    assert !effective[Agents] && Grants(PlatformAdmin, Agents);
  }

  lemma AdminFullIsPlatformAdmin(staff: bool, effective: Permissions)
    requires forall f :: f in effective <==> f in FEATURES
    ensures !Reports(AdminFull, staff, effective)
  {
    if staff && forall f <- effective :: effective[f] {
      SamePermissions(PlatformAdmin, effective);
      assert REPORTABLE[4] == PlatformAdmin && Matches(PlatformAdmin, staff, effective);
    }
  }

  /** Conversely the account has the permissions of the reported profile, and its staff flag unless that is
      `server_only`. */
  lemma ReportedIsHeld(reported: Profile, staff: bool, effective: Permissions)
    requires Named(reported) && (forall f :: f in effective <==> f in FEATURES) && Reports(reported, staff, effective)
    ensures effective == ProfilePermissions(reported)
    ensures StaffFlag(reported) == staff <==> !reported.ServerOnly?
  {
    AdminFullIsPlatformAdmin(staff, effective);
    if reported.ServerOnly? {
      ServerOnlyIsStaff(staff, effective);
    }
  }

  lemma {:induction false} NothingSaid(candidates: seq<Feature>)
    ensures FirstSay(candidates, map[], map[]) == None
  {
    if candidates != [] {
      NothingSaid(candidates[1..]);
    }
  }

  lemma DecisionWithoutRows(f: Feature)
    ensures Decision(false, f, map[], map[], {}) == Grants(PilotUser, f)
  {
    var candidates := Legacy(f);
    NothingSaid(candidates);
    assert Legacy(f) == candidates;
  }

  /** After a reset an account without staff flag and without group rows is back at the pilot's permissions. */
  lemma ResetIsPilot(effective: Permissions, reported: Profile)
    requires IsEffective(effective, false, map[], map[], {}) && Reports(reported, false, effective)
    ensures reported.PilotUser?
  {
    forall f | f in FEATURES ensures effective[f] == Grants(PilotUser, f) {
      DecisionWithoutRows(f);
    }
    SamePermissions(PilotUser, effective);
    assert REPORTABLE[0] == PilotUser;
    ReportIsUnique(reported, PilotUser, false, effective);
  }
}
