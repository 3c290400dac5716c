/** The profile edit page: the stored profile loaded into the form, the
    Spanish role labels of its select, and the body it submits to `PATCH`. */
module EditForm {
  import opened Text
  import opened Seqs
  import opened Values
  import opened Profiles

  /** `roleToEs`: every role to the label the select shows for it. */
  const RoleToEs: map<string, string> := map[
    "Builder" := "Builder", "Founder" := "Founder", "Developer" := "Desarrollador",
    "Designer" := "Diseñador", "Investor" := "Inversionista", "Marketer" := "Marketer",
    "ContentCreator" := "Creador de contenido", "Other" := "Otro"]

  /** The Spanish entries of `esToEn`. */
  const SpanishOptions: map<string, string> := map[
    "Desarrollador" := "Developer", "Diseñador" := "Designer", "Inversionista" := "Investor",
    "Creador de contenido" := "ContentCreator", "Otro" := "Other"]

  /** `esToEn`: the Spanish labels to their roles and every role to itself
      (the two key sets are disjoint, so the union is the source's table). */
  const EsToEn: map<string, string> := SpanishOptions + map r | r in ValidRoles :: r

  /** `normalizeCategory`: a known option to its role; anything else passes
      through unchanged. */
  function NormalizeCategory(c: string): (r: string)
    ensures c in ValidRoles ==> r == c
    ensures c !in EsToEn ==> r == c
  {
    if c in EsToEn then EsToEn[c] else c
  }

  lemma RoleToEsCoversRoles()
    ensures RoleToEs.Keys == ValidRoles
  {
  }

  lemma SpanishOptionsAreRoles()
    ensures forall c :: c in SpanishOptions ==> SpanishOptions[c] in ValidRoles
  {
  }

  /** Every option of the select is normalised to a valid role, which the
      server's `normalizeRole` keeps as it is. */
  lemma NormalizeCategoryGivesRole(c: string)
    requires c in EsToEn
    ensures NormalizeCategory(c) in ValidRoles
    ensures NormalizeRole(Str(NormalizeCategory(c))) == NormalizeCategory(c)
  {
    SpanishOptionsAreRoles();
    NormalizeRoleEnglish(NormalizeCategory(c));
  }

  /** Each renamed role's label goes back to that role. */
  lemma RenamedLabelsRoundTrip()
    ensures NormalizeCategory("Desarrollador") == "Developer"
    ensures NormalizeCategory("Diseñador") == "Designer"
    ensures NormalizeCategory("Inversionista") == "Investor"
    ensures NormalizeCategory("Creador de contenido") == "ContentCreator"
    ensures NormalizeCategory("Otro") == "Other"
  {
  }

  /** The select's label for a role normalises back to that role. */
  lemma CategoryRoundTrip(r: string)
    requires r in ValidRoles
    ensures r in RoleToEs && NormalizeCategory(RoleToEs[r]) == r
  {
    RoleToEsCoversRoles();
    RenamedLabelsRoundTrip();
  }

  /** `roleToEs[p.role ?? ""] ?? p.role ?? "Developer"`: a known role shows
      its label, an unknown one shows raw, a missing one as `Developer`. */
  function LoadCategory(role: Option<string>): (c: string)
    ensures role.Some? && role.value in ValidRoles ==> c == RoleToEs[role.value]
    ensures role.Some? && role.value !in ValidRoles ==> c == role.value
    ensures role.None? ==> c == "Developer"
  {
    RoleToEsCoversRoles();
    var key := role.GetOr("");
    if key in RoleToEs then RoleToEs[key] else role.GetOr("Developer")
  }

  /** A stored role the server does not know survives loading and
      normalising, and is then reset to `Developer` by the server. */
  lemma UnknownRoleIsResetOnSave(role: string)
    requires role !in EsToEn && Trim(role) !in RoleLabels
    ensures LoadCategory(Some(role)) == role
    ensures NormalizeRole(Str(NormalizeCategory(LoadCategory(Some(role))))) == "Developer"
  {
  }

  /** The profile the edit page loads: the stored columns under the front
      end's names; null columns are missing. */
  datatype MeProfile = MeProfile(
    handle: Option<string>, name: Option<string>, avatar: Option<string>,
    bio: Option<string>, role: Option<string>, tags: seq<string>,
    location: Option<string>, x: Option<string>, linkedin: Option<string>,
    calendly: Option<string>, telegram: Option<string>, discord: Option<string>,
    available: Option<bool>, hiring: Option<bool>, investing: Option<bool>)

  /** What `/api/profiles/me` answers for a stored row. */
  function LoadedOfRow(p: Row): MeProfile {
    MeProfile(p.username, p.fullName, p.avatarUrl, p.bio, p.category, ListOrEmpty(p.skills),
           p.location, p.x, p.linkedin, p.calendly, p.telegram, p.discord,
           p.available, p.hiring, p.investing)
  }

  /** The edit form's state. */
  datatype Form = Form(
    username: string, fullName: string, avatarUrl: string, bio: string,
    category: string, skills: string, location: string,
    x: string, linkedin: string, calendly: string, telegram: string, discord: string,
    available: bool, investing: bool, hiring: bool)


  /** The load mapping: missing texts become "", the role goes through
      `LoadCategory`, the tags are joined with ", " and the flags are coerced
      with `Boolean`, missing read as false. */
  function ToForm(p: MeProfile): (v: Form)
    ensures v.skills == Join(p.tags, ", ")
    ensures v.category == LoadCategory(p.role)
    ensures v.available <==> p.available == Some(true)
    ensures v.hiring <==> p.hiring == Some(true)
    ensures v.investing <==> p.investing == Some(true)
    ensures v.username == p.handle.GetOr("") && v.fullName == p.name.GetOr("")
    ensures v.avatarUrl == p.avatar.GetOr("") && v.bio == p.bio.GetOr("")
    ensures v.location == p.location.GetOr("")
    ensures v.x == p.x.GetOr("") && v.linkedin == p.linkedin.GetOr("")
    ensures v.calendly == p.calendly.GetOr("")
    ensures v.telegram == p.telegram.GetOr("") && v.discord == p.discord.GetOr("")
  {
    Form(
      username := p.handle.GetOr(""), fullName := p.name.GetOr(""),
      avatarUrl := p.avatar.GetOr(""), bio := p.bio.GetOr(""),
      category := LoadCategory(p.role), skills := Join(p.tags, ", "),
      location := p.location.GetOr(""),
      x := p.x.GetOr(""), linkedin := p.linkedin.GetOr(""), calendly := p.calendly.GetOr(""),
      telegram := p.telegram.GetOr(""), discord := p.discord.GetOr(""),
      available := p.available == Some(true), hiring := p.hiring == Some(true),
      investing := p.investing == Some(true))
  }

  /** The JSON body `submit` sends: the form with its category normalised. */
  function SubmitBody(v: Form): (b: Body)
    ensures "category" in b && b["category"] == Str(NormalizeCategory(v.category))
    ensures "skills" in b && b["skills"] == Str(v.skills)
  {
    map[
      "username" := Str(v.username), "fullName" := Str(v.fullName),
      "avatarUrl" := Str(v.avatarUrl), "bio" := Str(v.bio),
      "category" := Str(NormalizeCategory(v.category)), "skills" := Str(v.skills),
      "location" := Str(v.location), "x" := Str(v.x), "linkedin" := Str(v.linkedin),
      "calendly" := Str(v.calendly), "telegram" := Str(v.telegram),
      "discord" := Str(v.discord), "available" := Flag(v.available),
      "investing" := Flag(v.investing), "hiring" := Flag(v.hiring)]
  }

  /** No tag holds a comma. */
  predicate CommaFree(ts: seq<string>) {
    forall k :: 0 <= k < |ts| ==> ',' !in ts[k]
  }

  /** Splitting the ", " join on commas gives the tags, each but the first
      with the space in front. */
  lemma SplitOfEditJoin(ts: seq<string>)
    requires |ts| > 0 && CommaFree(ts)
    ensures Split(Join(ts, ", "), ',') == PadAfterFirst(ts, " ")
  {
    var pieces := PadAfterFirst(ts, " ");
    JoinWiderSeparator(ts, ",", " ");
    assert "," + " " == ", ";
    forall k | 0 <= k < |ts| ensures ',' !in pieces[k] {
      if k > 0 {
        assert pieces[k] == " " + ts[k];
      }
    }
    SplitJoin(pieces, ',');
  }

  /** Trimming the pieces of the ", " join gives the trimmed tags back. */
  lemma TrimOfEditPieces(ts: seq<string>)
    requires forall k :: 0 <= k < |ts| ==> IsTrimmed(ts[k])
    ensures TrimEach(PadAfterFirst(ts, " ")) == ts
  {
    var pieces := PadAfterFirst(ts, " ");
    forall k | 0 <= k < |ts| ensures Trim(pieces[k]) == ts[k] {
      if k > 0 {
        TrimOfPadded(" ", ts[k], "");
        assert " " + ts[k] + "" == pieces[k];
      }
    }
  }

  /** A canonical, comma-free tag list survives the form's ", " join and
      the server's split, trim and filter unchanged. */
  lemma TagsSurviveEditJoin(ts: seq<string>)
    requires CanonicalTags(ts) && CommaFree(ts)
    ensures NormalizeTags(Str(Join(ts, ", "))) == ts
  {
    if ts == [] {
      assert Split("", ',') == [""];
      assert TrimEach([""]) == [""];
    } else {
      SplitOfEditJoin(ts);
      TrimOfEditPieces(ts);
      FilterAllKept(NonBlank, ts);
    }
  }

  /** The text fields of the submitted body. */
  lemma SubmitBodyTexts(v: Form)
    ensures var b := SubmitBody(v);
            && Field(b, "username") == Str(v.username) && Field(b, "fullName") == Str(v.fullName)
            && Field(b, "avatarUrl") == Str(v.avatarUrl) && Field(b, "bio") == Str(v.bio)
            && Field(b, "location") == Str(v.location)
  {
  }

  /** The role, tags and flags of the submitted body. */
  lemma SubmitBodyChoices(v: Form)
    ensures var b := SubmitBody(v);
            && Field(b, "category") == Str(NormalizeCategory(v.category))
            && Field(b, "skills") == Str(v.skills)
            && Field(b, "available") == Flag(v.available) && Field(b, "hiring") == Flag(v.hiring)
            && Field(b, "investing") == Flag(v.investing)
  {
  }

  /** The links and chat handles of the submitted body. */
  lemma SubmitBodyLinks(v: Form)
    ensures var b := SubmitBody(v);
            && Field(b, "linkedin") == Str(v.linkedin) && Field(b, "x") == Str(v.x)
            && Field(b, "calendly") == Str(v.calendly) && Field(b, "telegram") == Str(v.telegram)
            && Field(b, "discord") == Str(v.discord)
  {
  }

  /** A stored link, shown in the form and saved again, is stored unchanged. */
  lemma LinkRoundTrip(u: Option<string>)
    requires CanonicalUrl(u)
    ensures NormalizeUrl(Str(u.GetOr(""))) == u
  {
  }

  /** A stored chat handle, shown in the form and saved again, is stored unchanged. */
  lemma HandleRoundTrip(t: Option<string>)
    requires CanonicalHandle(t)
    ensures OrAbsent(TrimmedText(Str(t.GetOr("")))) == t
  {
  }

  /** Opening the edit page on a stored profile and saving it without
      changes stores the same fields under the same username, as long as no
      tag holds a comma (the form's text box would split it). */
  lemma EditWithoutChangesKeepsProfile(username: string, f: Fields)
    requires CanonicalFields(f) && CommaFree(f.skills) && IsTrimmed(username)
    ensures var body := SubmitBody(ToForm(LoadedOfRow(ToRow(username, f))));
            && TrimmedText(Field(body, "username")) == username
            && BuildFields(body) == f
  {
    var v := ToForm(LoadedOfRow(ToRow(username, f)));
    var body := SubmitBody(v);
    SubmitBodyTexts(v);
    SubmitBodyChoices(v);
    SubmitBodyLinks(v);
    CategoryRoundTrip(f.category);
    NormalizeRoleEnglish(f.category);
    TagsSurviveEditJoin(f.skills);
    LinkRoundTrip(f.linkedin);
    LinkRoundTrip(f.x);
    LinkRoundTrip(f.calendly);
    HandleRoundTrip(f.telegram);
    HandleRoundTrip(f.discord);
  }
}
