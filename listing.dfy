/** The read path behind the directory: the defensive projection of stored
    profile rows that the listing endpoint answers with. */
module Listing {
  import opened Text
  import opened Seqs
  import opened Values
  import opened Profiles

  /** `toRole`: a null category reads as `Developer`; any stored value passes
      through unchecked. */
  function ToRole(v: Option<string>): (r: string)
    ensures v.None? ==> r == "Developer"
    ensures v.Some? ==> r == v.value
  {
    v.GetOr("Developer")
  }

  /** `toTags`: a list loses its empty entries only (no trimming, no limit);
      legacy text is split on commas, trimmed and loses its blank pieces;
      null gives no tags. Order and multiplicity of what is kept are those
      of the input. */
  function ToTags(v: Skills): (r: seq<string>)
    ensures forall k :: 0 <= k < |r| ==> r[k] != ""
    ensures v.SkillList? ==> IsSubsequence(r, v.tags)
    ensures v.SkillText? ==> IsSubsequence(r, TrimEach(Split(v.text, ',')))
    ensures v.SkillText? ==> forall k :: 0 <= k < |r| ==> IsTrimmed(r[k])
    ensures v.NoSkills? ==> r == []
  {
    match v
    case SkillList(xs) => Filter(NonBlank, xs)
    case SkillText(s) =>
      var pieces := TrimEach(Split(s, ','));
      SubsequenceElements(Filter(NonBlank, pieces), pieces);
      TrimmedEntries(Split(s, ','));
      Filter(NonBlank, pieces)
    case NoSkills => []
  }

  /** A stored list loses none of its non-empty tags, and keeps each as
      often as it occurs. */
  lemma ToTagsKeepsListTags(xs: seq<string>)
    ensures forall t :: t != "" ==> multiset(ToTags(SkillList(xs)))[t] == multiset(xs)[t]
  {
    FilterCounts(NonBlank, xs);
  }

  /** Legacy text loses none of its non-blank trimmed pieces, and keeps each
      as often as it occurs. */
  lemma ToTagsKeepsTextTags(s: string)
    ensures forall t :: t != "" ==> multiset(ToTags(SkillText(s)))[t] == multiset(TrimEach(Split(s, ',')))[t]
  {
    FilterCounts(NonBlank, TrimEach(Split(s, ',')));
  }

  /** Reading back tags the write path stored gives them unchanged. */
  lemma ReadOfWrittenTags(v: Raw)
    ensures ToTags(SkillList(NormalizeTags(v))) == NormalizeTags(v)
  {
    FilterAllKept(NonBlank, NormalizeTags(v));
  }

  /** For legacy text, the write path keeps the first `MaxTags` of exactly
      the tags the read path shows, and all of them when there are few
      enough. */
  lemma WrittenTextTagsArePrefixOfRead(s: string)
    ensures NormalizeTags(Str(s)) <= ToTags(SkillText(s))
    ensures |ToTags(SkillText(s))| <= MaxTags ==> NormalizeTags(Str(s)) == ToTags(SkillText(s))
  {
  }

  /** One element of the listing's `rows.map`: null username, full name and
      avatar read as "", the role and tags go through `toRole` and `toTags`,
      other null columns are absent. The listing does not select `hiring`
      and `investing`, so they are always absent. */
  function ProjectRow(p: Row): (a: ApiProfile)
    ensures p.username.None? ==> a.handle == ""
    ensures p.fullName.None? ==> a.name == ""
    ensures p.avatarUrl.None? ==> a.avatar == ""
    ensures p.username.Some? ==> a.handle == p.username.value
    ensures p.fullName.Some? ==> a.name == p.fullName.value
    ensures p.avatarUrl.Some? ==> a.avatar == p.avatarUrl.value
    ensures a.role == ToRole(p.category) && a.tags == ToTags(p.skills)
    ensures a.bio == p.bio && a.location == p.location && a.available == p.available
    ensures a.linkedin == p.linkedin && a.x == p.x && a.calendly == p.calendly
    ensures a.telegram == p.telegram && a.discord == p.discord
    ensures a.hiring.None? && a.investing.None?
    ensures forall k :: 0 <= k < |a.tags| ==> a.tags[k] != ""
  {
    ApiProfile(
      handle := p.username.GetOr(""), name := p.fullName.GetOr(""),
      role := ToRole(p.category), avatar := p.avatarUrl.GetOr(""),
      tags := ToTags(p.skills),
      bio := p.bio, location := p.location, available := p.available,
      hiring := None, investing := None,
      linkedin := p.linkedin, x := p.x, calendly := p.calendly,
      telegram := p.telegram, discord := p.discord)
  }

  /** The listing answers one item per row, in the order storage returns
      them (newest first). */
  function ProjectRows(rows: seq<Row>): (items: seq<ApiProfile>)
    ensures |items| == |rows|
    ensures forall k :: 0 <= k < |rows| ==> items[k] == ProjectRow(rows[k])
  {
    seq(|rows|, k requires 0 <= k < |rows| => ProjectRow(rows[k]))
  }

  /** For a row the write path stored, the listing shows what the write
      handlers answered, less `hiring` and `investing`. */
  lemma ListingAgreesWithWriteReply(username: string, f: Fields)
    requires CanonicalFields(f)
    ensures ProjectRow(ToRow(username, f))
            == MapDbToApi(ToRow(username, f)).(hiring := None, investing := None)
  {
    ReadOfWrittenTags(Lst(f.skills));
    NormalizeTagsKeepsCanonical(f.skills);
  }
}
