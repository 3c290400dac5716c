/** The write path of the profile directory: the normalisers that turn a
    loosely typed request body into a canonical profile, the stored row and
    its API shape, and the create (POST) and upsert-by-username (PATCH)
    handlers over a table of profiles keyed by username. */
module Profiles {
  import opened Text
  import opened Seqs
  import opened Values

  // ---------------------------------------------------------------- roles

  /** The closed set of roles the write path stores. */
  const ValidRoles: set<string> :=
    {"Builder", "Founder", "Developer", "Designer", "Investor", "Marketer", "ContentCreator", "Other"}

  /** The Spanish labels the forms show, each with the role it stands for. */
  const SpanishLabels: map<string, string> := map[
    "Desarrollador" := "Developer",
    "Diseñador" := "Designer",
    "Inversionista" := "Investor",
    "Creador de contenido" := "ContentCreator",
    "Creador de Contenido" := "ContentCreator",
    "Otro" := "Other"
  ]

  /** The lookup table of `normalizeRole`: the Spanish labels, and every
      valid role standing for itself. */
  const RoleLabels: map<string, string> := SpanishLabels + map role | role in ValidRoles :: role

  /** Canonicalises a role: the trimmed input is looked up among the labels,
      and anything that does not resolve to a valid role becomes `Developer`. */
  function NormalizeRole(input: Raw): (r: string)
    ensures r in ValidRoles
    ensures var raw := TrimmedText(input);
            r == if raw in RoleLabels then RoleLabels[raw] else "Developer"
  {
    var raw := TrimmedText(input);
    var candidate := if raw in RoleLabels then RoleLabels[raw] else raw;
    if candidate in ValidRoles then candidate else "Developer"
  }

  /** Every label is a non-empty trimmed string. */
  lemma LabelsAreTrimmed()
    ensures forall key :: key in RoleLabels ==> key != "" && IsTrimmed(key)
  {
    SpanishLabelsAreTrimmed();
    RolesAreTrimmed();
    assert forall key :: key in RoleLabels ==> key in SpanishLabels || key in ValidRoles;
  }

  lemma SpanishLabelsAreTrimmed()
    ensures forall key :: key in SpanishLabels ==> key != "" && IsTrimmed(key)
  {
  }

  lemma RolesAreTrimmed()
    ensures forall role :: role in ValidRoles ==> role != "" && IsTrimmed(role)
  {
  }

  /** A label padded with white space on either side resolves to its role. */
  lemma NormalizeRoleLabel(a: string, key: string, b: string)
    requires AllSpace(a) && AllSpace(b) && key in RoleLabels
    ensures NormalizeRole(Str(a + key + b)) == RoleLabels[key]
  {
    LabelsAreTrimmed();
    TrimOfPadded(a, key, b);
  }

  /** Each Spanish label, padded with any white space, resolves to its role. */
  lemma NormalizeRoleSpanish(a: string, key: string, b: string)
    requires AllSpace(a) && AllSpace(b) && key in SpanishLabels
    ensures NormalizeRole(Str(a + key + b)) == SpanishLabels[key]
  {
    assert key !in ValidRoles;
    NormalizeRoleLabel(a, key, b);
  }

  /** `normalizeRole` is the identity on each valid role. */
  lemma NormalizeRoleEnglish(role: string)
    requires role in ValidRoles
    ensures NormalizeRole(Str(role)) == role
  {
    assert role in RoleLabels && RoleLabels[role] == role;
    NormalizeRoleLabel("", role, "");
    assert "" + role + "" == role;
  }

  /** Roles outside the closed set, the directory's `Mentor` and `Legal`
      among them, and a missing or blank value all fall back to `Developer`. */
  lemma NormalizeRoleFallback(input: Raw)
    requires TrimmedText(input) in {"", "Mentor", "Legal"}
    ensures NormalizeRole(input) == "Developer"
  {
    assert "" !in RoleLabels && "Mentor" !in RoleLabels && "Legal" !in RoleLabels;
  }

  // ----------------------------------------------------------------- tags

  /** `normalizeTags` keeps at most this many tags. */
  const MaxTags: nat := 30

  /** The entries a tags value offers: the items of a list, or the
      comma-separated pieces of a string; any other value offers none. */
  function TagEntries(v: Raw): seq<string> {
    match v
    case Lst(xs) => xs
    case Str(s) => Split(s, ',')
    case _ => []
  }

  /** `xs.map((s) => s.trim())` */
  function TrimEach(xs: seq<string>): (r: seq<string>)
    ensures |r| == |xs|
    ensures forall k :: 0 <= k < |r| ==> r[k] == Trim(xs[k])
  {
    seq(|xs|, k requires 0 <= k < |xs| => Trim(xs[k]))
  }

  /** Every entry of a trimmed list is trimmed. */
  lemma TrimmedEntries(xs: seq<string>)
    ensures forall t :: t in TrimEach(xs) ==> IsTrimmed(t)
  {
  }

  /** `Boolean(s)` on a string. */
  predicate NonBlank(s: string) {
    s != ""
  }

  /** A stored tag list: at most `MaxTags` tags, each trimmed and non-empty. */
  predicate CanonicalTags(ts: seq<string>) {
    |ts| <= MaxTags && forall k :: 0 <= k < |ts| ==> ts[k] != "" && IsTrimmed(ts[k])
  }

  /** `normalizeTags`: trims every entry, drops the blank ones and keeps the
      first `MaxTags`, in their order. Either no non-blank entry was dropped
      or the result is full. A string gives what its comma-separated pieces
      given as a list give. Duplicates are kept. */
  function NormalizeTags(v: Raw): (r: seq<string>)
    ensures CanonicalTags(r)
    ensures IsSubsequence(r, TrimEach(TagEntries(v)))
    ensures r <= Filter(NonBlank, TrimEach(TagEntries(v)))
    ensures |r| == MaxTags || r == Filter(NonBlank, TrimEach(TagEntries(v)))
  {
    var trimmed := TrimEach(TagEntries(v));
    var kept := Filter(NonBlank, trimmed);
    SubsequenceElements(kept, trimmed);
    TrimmedEntries(TagEntries(v));
    if |kept| <= MaxTags then kept
    else
      PrefixOfSubsequence(kept[..MaxTags], kept, trimmed);
      kept[..MaxTags]
  }

  /** Unless the list is full, every non-blank trimmed entry is kept, as
      often as it occurs. */
  lemma NormalizeTagsComplete(v: Raw)
    ensures var r := NormalizeTags(v);
            |r| == MaxTags
            || forall t :: t != "" ==> multiset(r)[t] == multiset(TrimEach(TagEntries(v)))[t]
  {
    FilterCounts(NonBlank, TrimEach(TagEntries(v)));
  }

  /** A string of tags normalises as the list of its comma-separated pieces;
      a value that is neither gives no tags. */
  lemma NormalizeTagsOfText(v: Raw)
    ensures v.Str? ==> NormalizeTags(v) == NormalizeTags(Lst(Split(v.s, ',')))
    ensures !v.Str? && !v.Lst? ==> NormalizeTags(v) == []
  {
  }

  /** A canonical tag list is its own normal form. */
  lemma NormalizeTagsKeepsCanonical(ts: seq<string>)
    requires CanonicalTags(ts)
    ensures NormalizeTags(Lst(ts)) == ts
  {
    assert TrimEach(ts) == ts;
    FilterAllKept(NonBlank, ts);
  }

  /** Normalising tags twice changes nothing more. */
  lemma NormalizeTagsIdempotent(v: Raw)
    ensures NormalizeTags(Lst(NormalizeTags(v))) == NormalizeTags(v)
  {
    NormalizeTagsKeepsCanonical(NormalizeTags(v));
  }

  // ----------------------------------------------------------------- URLs

  /** A stored link: absent, or a trimmed value with an http(s) scheme. */
  predicate CanonicalUrl(u: Option<string>) {
    u.Some? ==> u.value != "" && IsTrimmed(u.value) && HasHttpScheme(u.value)
  }

  /** `normalizeUrl`: blank input is absent; a trimmed value that already has
      an http(s) scheme (in any letter case) is kept; any other gets
      `https://` in front. */
  function NormalizeUrl(v: Raw): (r: Option<string>)
    ensures r.None? <==> TrimmedText(v) == ""
    ensures CanonicalUrl(r)
    ensures HasHttpScheme(TrimmedText(v)) ==> r == Some(TrimmedText(v))
    ensures TrimmedText(v) != "" && !HasHttpScheme(TrimmedText(v))
            ==> r == Some("https://" + TrimmedText(v))
  {
    var s := TrimmedText(v);
    if s == "" then None
    else if HasHttpScheme(s) then Some(s)
    else
      HttpsPrefixIsCanonical(s);
      Some("https://" + s)
  }

  /** Putting `https://` in front of a trimmed non-empty string gives a
      trimmed string with an http(s) scheme. */
  lemma HttpsPrefixIsCanonical(s: string)
    requires s != "" && IsTrimmed(s)
    ensures var u := "https://" + s;
            IsTrimmed(u) && HasHttpScheme(u)
  {
    var u := "https://" + s;
    assert u[..8] == "https://";
    assert u[|u| - 1] == s[|s| - 1];
  }

  /** A normalised link is its own normal form. */
  lemma NormalizeUrlIdempotent(v: Raw)
    ensures var r := NormalizeUrl(v);
            r.Some? ==> NormalizeUrl(Str(r.value)) == r
  {
  }

  // ------------------------------------------------------ the stored fields

  /** Everything `POST` and `PATCH` write besides the username: the `data`
      object of the handlers. An absent link or handle is `undefined`. */
  datatype Fields = Fields(
    fullName: string, avatarUrl: string, category: string, skills: seq<string>,
    bio: string, location: string,
    available: bool, hiring: bool, investing: bool,
    linkedin: Option<string>, x: Option<string>, calendly: Option<string>,
    telegram: Option<string>, discord: Option<string>)

  /** A chat handle: absent, or a trimmed non-empty value. */
  predicate CanonicalHandle(t: Option<string>) {
    t.Some? ==> t.value != "" && IsTrimmed(t.value)
  }

  /** What the write path guarantees of every field it stores. */
  predicate CanonicalFields(f: Fields) {
    && IsTrimmed(f.fullName) && IsTrimmed(f.avatarUrl)
    && f.category in ValidRoles && CanonicalTags(f.skills)
    && IsTrimmed(f.bio) && IsTrimmed(f.location)
    && CanonicalUrl(f.linkedin) && CanonicalUrl(f.x) && CanonicalUrl(f.calendly)
    && CanonicalHandle(f.telegram) && CanonicalHandle(f.discord)
  }

  /** The field-building step shared by `POST` and `PATCH`: texts trimmed
      (empty kept), the role and tags normalised, flags coerced by truthiness,
      links normalised, and empty chat handles made absent. */
  function BuildFields(body: Body): (f: Fields)
    ensures CanonicalFields(f)
    ensures f.fullName == TrimmedText(Field(body, "fullName"))
    ensures f.avatarUrl == TrimmedText(Field(body, "avatarUrl"))
    ensures f.bio == TrimmedText(Field(body, "bio"))
    ensures f.location == TrimmedText(Field(body, "location"))
    ensures f.category == NormalizeRole(Field(body, "category"))
    ensures f.skills == NormalizeTags(Field(body, "skills"))
    ensures f.available == Truthy(Field(body, "available"))
    ensures f.hiring == Truthy(Field(body, "hiring"))
    ensures f.investing == Truthy(Field(body, "investing"))
    ensures f.linkedin == NormalizeUrl(Field(body, "linkedin"))
    ensures f.x == NormalizeUrl(Field(body, "x"))
    ensures f.calendly == NormalizeUrl(Field(body, "calendly"))
    ensures f.telegram.None? <==> TrimmedText(Field(body, "telegram")) == ""
    ensures f.discord.None? <==> TrimmedText(Field(body, "discord")) == ""
    ensures f.telegram.Some? ==> f.telegram.value == TrimmedText(Field(body, "telegram"))
    ensures f.discord.Some? ==> f.discord.value == TrimmedText(Field(body, "discord"))
  {
    Fields(
      fullName := TrimmedText(Field(body, "fullName")),
      avatarUrl := TrimmedText(Field(body, "avatarUrl")),
      category := NormalizeRole(Field(body, "category")),
      skills := NormalizeTags(Field(body, "skills")),
      bio := TrimmedText(Field(body, "bio")),
      location := TrimmedText(Field(body, "location")),
      available := Truthy(Field(body, "available")),
      hiring := Truthy(Field(body, "hiring")),
      investing := Truthy(Field(body, "investing")),
      linkedin := NormalizeUrl(Field(body, "linkedin")),
      x := NormalizeUrl(Field(body, "x")),
      calendly := NormalizeUrl(Field(body, "calendly")),
      telegram := OrAbsent(TrimmedText(Field(body, "telegram"))),
      discord := OrAbsent(TrimmedText(Field(body, "discord"))))
  }

  // ------------------------------------------------- stored rows, API shape

  /** The `skills` column as rows may hold it: a list, legacy text, or null. */
  datatype Skills = SkillList(tags: seq<string>) | SkillText(text: string) | NoSkills

  /** A profile row as the database returns it; every column may be null. */
  datatype Row = Row(
    username: Option<string>, fullName: Option<string>, avatarUrl: Option<string>,
    category: Option<string>, skills: Skills,
    bio: Option<string>, location: Option<string>,
    available: Option<bool>, hiring: Option<bool>, investing: Option<bool>,
    linkedin: Option<string>, x: Option<string>, calendly: Option<string>,
    telegram: Option<string>, discord: Option<string>)

  /** The row `{ username, ...data }` creates: every column set, except
      that an `undefined` link or chat handle is null. */
  function ToRow(username: string, f: Fields): (p: Row)
    ensures p.username == Some(username) && p.fullName == Some(f.fullName)
    ensures p.avatarUrl == Some(f.avatarUrl) && p.category == Some(f.category)
    ensures p.skills == SkillList(f.skills)
    ensures p.bio == Some(f.bio) && p.location == Some(f.location)
    ensures p.available == Some(f.available) && p.hiring == Some(f.hiring)
    ensures p.investing == Some(f.investing)
    ensures p.linkedin == f.linkedin && p.x == f.x && p.calendly == f.calendly
    ensures p.telegram == f.telegram && p.discord == f.discord
  {
    Row(Some(username), Some(f.fullName), Some(f.avatarUrl), Some(f.category), SkillList(f.skills),
        Some(f.bio), Some(f.location), Some(f.available), Some(f.hiring), Some(f.investing),
        f.linkedin, f.x, f.calendly, f.telegram, f.discord)
  }

  /** The profile as the front end consumes it. */
  datatype ApiProfile = ApiProfile(
    handle: string, name: string, role: string, avatar: string, tags: seq<string>,
    bio: Option<string>, location: Option<string>,
    available: Option<bool>, hiring: Option<bool>, investing: Option<bool>,
    linkedin: Option<string>, x: Option<string>, calendly: Option<string>,
    telegram: Option<string>, discord: Option<string>)

  /** `Array.isArray(skills) ? skills : []` */
  function ListOrEmpty(s: Skills): seq<string> {
    if s.SkillList? then s.tags else []
  }

  /** `mapDbToApi`: null username, full name and avatar read as "", null
      skills (or skills that are not a list) as no tags, a null category as
      `Developer`; the other columns pass through, null read as absent. */
  function MapDbToApi(p: Row): (a: ApiProfile)
    ensures p.username.None? ==> a.handle == ""
    ensures p.fullName.None? ==> a.name == ""
    ensures p.avatarUrl.None? ==> a.avatar == ""
    ensures p.username.Some? ==> a.handle == p.username.value
    ensures p.fullName.Some? ==> a.name == p.fullName.value
    ensures p.avatarUrl.Some? ==> a.avatar == p.avatarUrl.value
    ensures p.category.None? ==> a.role == "Developer"
    ensures p.category.Some? ==> a.role == p.category.value
    ensures p.skills.SkillList? ==> a.tags == p.skills.tags
    ensures !p.skills.SkillList? ==> a.tags == []
    ensures a.bio == p.bio && a.location == p.location
    ensures a.available == p.available && a.hiring == p.hiring && a.investing == p.investing
    ensures a.linkedin == p.linkedin && a.x == p.x && a.calendly == p.calendly
    ensures a.telegram == p.telegram && a.discord == p.discord
  {
    ApiProfile(
      handle := p.username.GetOr(""), name := p.fullName.GetOr(""),
      role := p.category.GetOr("Developer"), avatar := p.avatarUrl.GetOr(""),
      tags := ListOrEmpty(p.skills),
      bio := p.bio, location := p.location,
      available := p.available, hiring := p.hiring, investing := p.investing,
      linkedin := p.linkedin, x := p.x, calendly := p.calendly,
      telegram := p.telegram, discord := p.discord)
  }

  /** The item a handler returns for a row it wrote shows exactly what was
      written, with a valid role and canonical tags. */
  lemma WrittenRowReadsBack(username: string, f: Fields)
    requires CanonicalFields(f)
    ensures var a := MapDbToApi(ToRow(username, f));
            && a.handle == username && a.name == f.fullName && a.avatar == f.avatarUrl
            && a.role == f.category && a.role in ValidRoles
            && a.tags == f.skills && CanonicalTags(a.tags)
            && a.bio == Some(f.bio) && a.location == Some(f.location)
            && a.available == Some(f.available) && a.hiring == Some(f.hiring)
            && a.investing == Some(f.investing)
            && a.linkedin == f.linkedin && a.x == f.x && a.calendly == f.calendly
            && a.telegram == f.telegram && a.discord == f.discord
  {
  }

  // -------------------------------------------------------------- handlers

  datatype ReplyBody = Item(profile: ApiProfile) | Error(message: string) | StorageFault
  /** An HTTP reply; `StorageFault` is the 500 reply carrying the storage
      exception's message, whose text is not modelled. */
  datatype Reply = Reply(status: int, body: ReplyBody)

  const UsernameRequired: string := "El username es obligatorio."
  const NameRequired: string := "El nombre es obligatorio."

  /** The upsert by username: the row for `handle` becomes exactly `data`,
      whether or not one existed, and no other row changes. */
  function Upsert(rows: map<string, Fields>, handle: string, data: Fields): (r: map<string, Fields>)
    ensures r.Keys == rows.Keys + {handle}
    ensures handle in r && r[handle] == data
    ensures forall u :: u in rows && u != handle ==> r[u] == rows[u]
  {
    rows[handle := data]
  }

  /** Repeating an upsert with the same data changes nothing more, and what
      was stored before does not show through. */
  lemma UpsertIdempotent(rows: map<string, Fields>, other: map<string, Fields>, handle: string, data: Fields)
    ensures Upsert(Upsert(rows, handle, data), handle, data) == Upsert(rows, handle, data)
    ensures Upsert(rows, handle, data)[handle] == Upsert(other, handle, data)[handle]
  {
  }

  /** Prisma's `update`: a field whose value is `undefined` is left as it was.
      This is what the handler's upsert does to an existing row. */
  function UpdateAsWritten(stored: Fields, data: Fields): (r: Fields)
    ensures r.(linkedin := data.linkedin, x := data.x, calendly := data.calendly,
               telegram := data.telegram, discord := data.discord) == data
    ensures data.linkedin.None? ==> r.linkedin == stored.linkedin
    ensures data.x.None? ==> r.x == stored.x
    ensures data.calendly.None? ==> r.calendly == stored.calendly
    ensures data.telegram.None? ==> r.telegram == stored.telegram
    ensures data.discord.None? ==> r.discord == stored.discord
    ensures data.linkedin.Some? ==> r.linkedin == data.linkedin
    ensures data.x.Some? ==> r.x == data.x
    ensures data.calendly.Some? ==> r.calendly == data.calendly
    ensures data.telegram.Some? ==> r.telegram == data.telegram
    ensures data.discord.Some? ==> r.discord == data.discord
    ensures (data.linkedin.Some? && data.x.Some? && data.calendly.Some?
             && data.telegram.Some? && data.discord.Some?) ==> r == data
  {
    data.(linkedin := Defined(stored.linkedin, data.linkedin),
          x := Defined(stored.x, data.x),
          calendly := Defined(stored.calendly, data.calendly),
          telegram := Defined(stored.telegram, data.telegram),
          discord := Defined(stored.discord, data.discord))
  }

  /** One optional field under Prisma's `update`: `undefined` keeps the stored value. */
  function Defined(stored: Option<string>, given: Option<string>): (r: Option<string>)
    ensures given.None? ==> r == stored
    ensures given.Some? ==> r == given
  {
    if given.None? then stored else given
  }

  /** The upsert as the handler performs it. */
  function UpsertAsWritten(rows: map<string, Fields>, handle: string, data: Fields): (r: map<string, Fields>)
    ensures r.Keys == rows.Keys + {handle}
    ensures handle !in rows ==> r[handle] == data
    ensures handle in rows ==> r[handle] == UpdateAsWritten(rows[handle], data)
    ensures forall u :: u in rows && u != handle ==> r[u] == rows[u]
  {
    if handle in rows then rows[handle := UpdateAsWritten(rows[handle], data)] else rows[handle := data]
  }

  /** The upsert as written and the corrected one agree whenever every link
      and chat handle of the new data is present. */
  lemma UpsertAsWrittenAgreesWhenAllPresent(rows: map<string, Fields>, handle: string, data: Fields)
    requires data.linkedin.Some? && data.x.Some? && data.calendly.Some?
    requires data.telegram.Some? && data.discord.Some?
    ensures UpsertAsWritten(rows, handle, data) == Upsert(rows, handle, data)
  {
  }

  /** As written, blanking a stored link on the edit form does not clear it:
      the old link survives the upsert, while the corrected upsert stores
      the absent link the body asked for. */
  lemma BlankedLinkSurvivesAsWritten(rows: map<string, Fields>, handle: string, body: Body)
    requires handle in rows && rows[handle].linkedin.Some?
    requires TrimmedText(Field(body, "linkedin")) == ""
    ensures BuildFields(body).linkedin == None
    ensures UpsertAsWritten(rows, handle, BuildFields(body))[handle].linkedin == rows[handle].linkedin
    ensures Upsert(rows, handle, BuildFields(body))[handle].linkedin == None
  {
  }

  /** The concrete case: `ada` has a LinkedIn link and saves the edit form
      with the link field emptied. */
  lemma BlankedLinkCounterexample()
    ensures var stored := Fields("Ada", "", "Developer", [], "", "", false, false, false,
                                 Some("https://linkedin.com/in/ada"), None, None, None, None);
            var data := BuildFields(map["username" := Str("ada"), "linkedin" := Str("")]);
            && UpsertAsWritten(map["ada" := stored], "ada", data)["ada"].linkedin
               == Some("https://linkedin.com/in/ada")
            && Upsert(map["ada" := stored], "ada", data)["ada"].linkedin == None
  {
    var stored := Fields("Ada", "", "Developer", [], "", "", false, false, false,
                         Some("https://linkedin.com/in/ada"), None, None, None, None);
    var body := map["username" := Str("ada"), "linkedin" := Str("")];
    assert Field(body, "linkedin") == Str("");
    BlankedLinkSurvivesAsWritten(map["ada" := stored], "ada", body);
  }

  /** Every key is a trimmed non-empty username and every row is canonical. */
  predicate CanonicalTable(rows: map<string, Fields>) {
    forall u :: u in rows ==> u != "" && IsTrimmed(u) && CanonicalFields(rows[u])
  }

  /** Writing a canonical row under a trimmed non-empty username keeps the
      table canonical. */
  lemma UpsertKeepsCanonical(rows: map<string, Fields>, handle: string, data: Fields)
    requires CanonicalTable(rows) && handle != "" && IsTrimmed(handle) && CanonicalFields(data)
    ensures CanonicalTable(Upsert(rows, handle, data))
  {
  }

  /** A table of profiles keyed by username, written through `POST` and `PATCH`. */
  class ProfileStore {
    var rows: map<string, Fields>

    /** The table is canonical, as `CanonicalTable` says. */
    predicate Valid()
      reads this
    {
      CanonicalTable(rows)
    }

    constructor ()
      ensures Valid() && rows == map[]
    {
      rows := map[];
    }

    /** `POST`: rejects a blank username, then a blank name, with 400 and no
        write; creating a username that exists violates the unique
        constraint (500); otherwise adds the row and answers 201. */
    method Post(body: Body) returns (reply: Reply)
      requires Valid()
      modifies this
      ensures Valid()
      ensures var handle := TrimmedText(Field(body, "username"));
              var name := TrimmedText(Field(body, "fullName"));
              if handle == "" then reply == Reply(400, Error(UsernameRequired)) && rows == old(rows)
              else if name == "" then reply == Reply(400, Error(NameRequired)) && rows == old(rows)
              else if handle in old(rows) then reply == Reply(500, StorageFault) && rows == old(rows)
              else && rows == Upsert(old(rows), handle, BuildFields(body))
                   && rows[handle].fullName == name
                   && reply == Reply(201, Item(MapDbToApi(ToRow(handle, BuildFields(body)))))
    {
      var handle := TrimmedText(Field(body, "username"));
      var name := TrimmedText(Field(body, "fullName"));
      if handle == "" {
        return Reply(400, Error(UsernameRequired));
      }
      if name == "" {
        return Reply(400, Error(NameRequired));
      }
      var data := BuildFields(body);
      if handle in rows {
        return Reply(500, StorageFault);
      }
      UpsertKeepsCanonical(rows, handle, data);
      rows := Upsert(rows, handle, data);
      reply := Reply(201, Item(MapDbToApi(ToRow(handle, data))));
    }

    /** `PATCH`: rejects a blank username with 400 and no write; otherwise
        upserts the row for that username and answers 200 with it. */
    method Patch(body: Body) returns (reply: Reply)
      requires Valid()
      modifies this
      ensures Valid()
      ensures var handle := TrimmedText(Field(body, "username"));
              if handle == "" then reply == Reply(400, Error(UsernameRequired)) && rows == old(rows)
              else && rows == Upsert(old(rows), handle, BuildFields(body))
                   && reply == Reply(200, Item(MapDbToApi(ToRow(handle, BuildFields(body)))))
    {
      var handle := TrimmedText(Field(body, "username"));
      if handle == "" {
        return Reply(400, Error(UsernameRequired));
      }
      var data := BuildFields(body);
      UpsertKeepsCanonical(rows, handle, data);
      rows := Upsert(rows, handle, data);
      reply := Reply(200, Item(MapDbToApi(ToRow(handle, data))));
    }
  }
}
