/** The directory page's client-side logic: normalising the loaded items,
    the search / role / availability filter, and the key of each card. */
module Directory {
  import opened Text
  import opened Seqs
  import opened Values
  import opened Profiles
  import opened Listing

  /** An item as the page receives it; any field may be missing and `tags`
      may be any JSON value. */
  datatype ListedItem = ListedItem(
    handle: Option<string>, name: Option<string>, role: Option<string>,
    bio: Option<string>, location: Option<string>, available: Option<bool>,
    tags: Raw)

  /** An item after the page's tag normalisation. */
  datatype Card = Card(
    handle: Option<string>, name: Option<string>, role: Option<string>,
    bio: Option<string>, location: Option<string>, available: Option<bool>,
    tags: seq<string>)

  /** What the page receives for one item of the listing. */
  function FromApi(a: ApiProfile): ListedItem {
    ListedItem(Some(a.handle), Some(a.name), Some(a.role), a.bio, a.location, a.available, Lst(a.tags))
  }

  /** `{ ...p, tags: Array.isArray(p.tags) ? p.tags : [] }` */
  function ToCard(p: ListedItem): (c: Card)
    ensures p.tags.Lst? ==> c.tags == p.tags.items
    ensures !p.tags.Lst? ==> c.tags == []
    ensures c.handle == p.handle && c.name == p.name && c.role == p.role
    ensures c.bio == p.bio && c.location == p.location && c.available == p.available
  {
    Card(p.handle, p.name, p.role, p.bio, p.location, p.available,
         if p.tags.Lst? then p.tags.items else [])
  }

  /** The loaded list, normalised item by item: same count, same order. */
  function NormalizeLoaded(items: seq<ListedItem>): (r: seq<Card>)
    ensures |r| == |items|
    ensures forall k :: 0 <= k < |items| ==> r[k] == ToCard(items[k])
  {
    seq(|items|, k requires 0 <= k < |items| => ToCard(items[k]))
  }

  /** Items that come from the listing keep their tags. */
  lemma ListingTagsSurviveLoading(a: ApiProfile)
    ensures ToCard(FromApi(a)).tags == a.tags
    ensures ToCard(FromApi(a)).role == Some(a.role)
  {
  }

  /** `q.trim().toLowerCase()` */
  function Needle(q: string): (r: string)
    ensures r == "" <==> Trim(q) == ""
    ensures Lower(r) == r
  {
    LowerIdempotent(Trim(q));
    Lower(Trim(q))
  }

  /** The searched text: name, handle, bio, location and tags, missing ones
      read as "", joined with spaces and lowercased. */
  function Haystack(p: Card): (h: string)
    ensures Lower(h) == h
    ensures Lower(p.name.GetOr("")) <= h
    ensures Contains(h, Lower(p.name.GetOr(""))) && Contains(h, Lower(p.handle.GetOr("")))
    ensures Contains(h, Lower(p.bio.GetOr(""))) && Contains(h, Lower(p.location.GetOr("")))
    ensures forall k :: 0 <= k < |p.tags| ==> Contains(h, Lower(p.tags[k]))
  {
    var parts := [p.name.GetOr(""), p.handle.GetOr(""), p.bio.GetOr(""), p.location.GetOr("")] + p.tags;
    var joined := Join(parts, " ");
    LowerIdempotent(joined);
    LowerOfPrefix(parts[0], joined);
    LowerJoinContainsPieces(parts, " ");
    assert parts[0] == p.name.GetOr("") && parts[1] == p.handle.GetOr("");
    assert parts[2] == p.bio.GetOr("") && parts[3] == p.location.GetOr("");
    assert forall k :: 0 <= k < |p.tags| ==> p.tags[k] == parts[k + 4];
    Lower(joined)
  }

  /** The callback of `items.filter`, with its early returns in order. */
  predicate Keep(p: Card, needle: string, role: string, onlyAvailable: bool): (b: bool)
    ensures b && onlyAvailable ==> p.available == Some(true)
    ensures b && role != "all" ==> p.role == Some(role)
    ensures b && needle != "" ==> Contains(Haystack(p), needle)
  {
    if onlyAvailable && p.available != Some(true) then false
    else if role != "all" && p.role != Some(role) then false
    else if needle == "" then true
    else Contains(Haystack(p), needle)
  }

  /** `filtered`: the order-preserving selection of the cards that pass;
      with `onlyAvailable` every card shown is available, with a role
      every card shown has that role, and no card that passes is lost. */
  function Filtered(items: seq<Card>, q: string, role: string, onlyAvailable: bool): (r: seq<Card>)
    ensures IsSubsequence(r, items)
    ensures onlyAvailable ==> forall k :: 0 <= k < |r| ==> r[k].available == Some(true)
    ensures role != "all" ==> forall k :: 0 <= k < |r| ==> r[k].role == Some(role)
    ensures forall p :: multiset(r)[p] == if Keep(p, Needle(q), role, onlyAvailable) then multiset(items)[p] else 0
  {
    FilterCounts(p => Keep(p, Needle(q), role, onlyAvailable), items);
    Filter(p => Keep(p, Needle(q), role, onlyAvailable), items)
  }

  /** With a blank query, role `all` and the availability box unticked,
      every card is shown. */
  lemma NoFilterShowsAll(items: seq<Card>, q: string)
    requires Trim(q) == ""
    ensures Filtered(items, q, "all", false) == items
  {
    FilterAllKept(p => Keep(p, Needle(q), "all", false), items);
  }

  /** A card that passes the availability and role tests is kept exactly
      when the trimmed lowercased query occurs in its haystack (a blank query
      occurs everywhere). */
  lemma KeepIsSearch(p: Card, q: string, role: string, onlyAvailable: bool)
    requires !onlyAvailable || p.available == Some(true)
    requires role == "all" || p.role == Some(role)
    ensures Keep(p, Needle(q), role, onlyAvailable) <==> Contains(Haystack(p), Needle(q))
  {
    if Needle(q) == "" {
      assert "" <= Haystack(p);
    }
  }

  /** `Mentor` and `Legal`, offered by the role filter, are not roles the
      write path can store. */
  lemma MentorAndLegalAreNotRoles()
    ensures "Mentor" !in ValidRoles && "Legal" !in ValidRoles
  {
  }

  /** A role filter naming something that is not a valid role shows nothing
      over cards whose roles are all valid. */
  lemma {:induction false} InvalidRoleFilterIsEmpty(items: seq<Card>, q: string, role: string, onlyAvailable: bool)
    requires role != "all" && role !in ValidRoles
    requires forall k :: 0 <= k < |items| ==> items[k].role.Some? && items[k].role.value in ValidRoles
    ensures Filtered(items, q, role, onlyAvailable) == []
  {
    FilterNoneKept(p => Keep(p, Needle(q), role, onlyAvailable), items);
  }

  /** The cards built from the listing of rows the write path stored. */
  function CardsOfWrittenRows(written: seq<(string, Fields)>): seq<Card> {
    NormalizeLoaded(seq(|written|, k requires 0 <= k < |written| =>
      FromApi(ProjectRow(ToRow(written[k].0, written[k].1)))))
  }

  /** Over profiles stored through the write path, the `Mentor` and `Legal`
      filters always show an empty directory. */
  lemma MentorAndLegalFiltersAreEmpty(written: seq<(string, Fields)>, q: string, onlyAvailable: bool)
    requires forall k :: 0 <= k < |written| ==> CanonicalFields(written[k].1)
    ensures Filtered(CardsOfWrittenRows(written), q, "Mentor", onlyAvailable) == []
    ensures Filtered(CardsOfWrittenRows(written), q, "Legal", onlyAvailable) == []
  {
    var cards := CardsOfWrittenRows(written);
    assert forall k :: 0 <= k < |cards| ==> cards[k].role == Some(written[k].1.category);
    MentorAndLegalAreNotRoles();
    InvalidRoleFilterIsEmpty(cards, q, "Mentor", onlyAvailable);
    InvalidRoleFilterIsEmpty(cards, q, "Legal", onlyAvailable);
  }

  /** The base of a card key: the handle when non-empty, otherwise the name
      (or `profile`) and the location joined with "-". */
  function KeyBase(p: Card): (b: string)
    ensures p.handle.Some? && p.handle.value != "" ==> b == p.handle.value
    ensures !(p.handle.Some? && p.handle.value != "")
            ==> b == p.name.GetOr("profile") + "-" + p.location.GetOr("")
  {
    if p.handle.Some? && p.handle.value != "" then p.handle.value
    else p.name.GetOr("profile") + "-" + p.location.GetOr("")
  }

  /** `profileKey(p, idx)`: the base, "-" and the decimal index; the index
      is what follows the last "-". */
  function ProfileKey(p: Card, idx: nat): (r: string)
    ensures var d := NatToString(idx);
            && |r| == |KeyBase(p)| + 1 + |d|
            && r[..|KeyBase(p)|] == KeyBase(p)
            && r[|r| - |d| - 1] == '-' && r[|r| - |d|..] == d
  {
    KeyBase(p) + "-" + NatToString(idx)
  }

  /** Keys at different indices differ, whatever the cards are. */
  lemma ProfileKeyDeterminesIndex(p: Card, i: nat, q: Card, j: nat)
    requires ProfileKey(p, i) == ProfileKey(q, j)
    ensures i == j
  {
    var di, dj := NatToString(i), NatToString(j);
    assert |di| == |dj|;
    NatToStringInjective(i, j);
  }

  /** The cards of one render get pairwise distinct keys. */
  lemma KeysAreDistinct(items: seq<Card>)
    ensures forall i, j :: 0 <= i < j < |items| ==> ProfileKey(items[i], i) != ProfileKey(items[j], j)
  {
    forall i, j | 0 <= i < j < |items|
      ensures ProfileKey(items[i], i) != ProfileKey(items[j], j)
    {
      if ProfileKey(items[i], i) == ProfileKey(items[j], j) {
        ProfileKeyDeterminesIndex(items[i], i, items[j], j);
      }
    }
  }
}
