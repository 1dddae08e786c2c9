/** The panel plugin of main.ts: its `externalLinks` array with add, edit
    and delete, the six-field search, the tag collection of `getAllTags`, and
    the comma-separated list fields of its forms. */
module PanelPlugin {
  import opened Seqs
  import opened Strings

  /** `ExternalLink` (main.ts:11-20). */
  datatype PanelLink = PanelLink(
    path: string,
    title: string,
    category: string,
    audience: seq<string>,
    tags: seq<string>,
    notes: string,
    dateAdded: string,
    dateModified: string)

  /** The filter condition of `searchExternalLinks` (main.ts:179-186). */
  predicate PanelMatches(link: PanelLink, lowerQuery: string) {
    || Contains(Lower(link.title), lowerQuery)
    || Contains(Lower(link.path), lowerQuery)
    || Contains(Lower(link.category), lowerQuery)
    || SomeContains(link.audience, lowerQuery)
    || SomeContains(link.tags, lowerQuery)
    || Contains(Lower(link.notes), lowerQuery)
  }

  /** The accessor `link => link.tags`, as a function value. */
  function LinkTags(link: PanelLink): seq<string> {
    link.tags
  }

  /** `tagCache.tag.slice(1)`: the cached tag without its leading '#'. */
  function DropFirst(tag: string): string {
    if tag == [] then [] else tag[1..]
  }

  function DropFirstAll(fileTags: seq<string>): (r: seq<string>)
    ensures |r| == |fileTags| && forall i | 0 <= i < |r| :: r[i] == DropFirst(fileTags[i])
  {
    seq(|fileTags|, i requires 0 <= i < |fileTags| => DropFirst(fileTags[i]))
  }

  /** Every tag in the order `getAllTags` adds it to its set: the tags of each
      link, then the tags of each vault file with the '#' dropped. */
  function TagSources(links: seq<PanelLink>, vaultFileTags: seq<seq<string>>): seq<string> {
    Flatten(MapSeq(links, LinkTags)) + Flatten(MapSeq(vaultFileTags, DropFirstAll))
  }

  /** The default settings (main.ts:22-26). */
  const DefaultCategories: seq<string> := ["Work", "Personal", "Research", "Other"]
  const DefaultAudiences: seq<string> := ["Self", "Team", "Client", "Public"]
  const DefaultFolder: string := "DMS"

  class DmsPanelPlugin {
    var externalLinks: seq<PanelLink>
    var categories: seq<string>
    var audiences: seq<string>
    var defaultFolder: string

    constructor ()
      ensures externalLinks == []
      ensures categories == DefaultCategories && audiences == DefaultAudiences && defaultFolder == DefaultFolder
    {
      externalLinks := [];
      categories := DefaultCategories;
      audiences := DefaultAudiences;
      defaultFolder := DefaultFolder;
    }

    /** `addExternalLink` (main.ts:94-97). */
    method AddExternalLink(link: PanelLink)
      modifies this`externalLinks
      ensures externalLinks == old(externalLinks) + [link]
    {
      externalLinks := externalLinks + [link];
    }

    /** `editExternalLink` (main.ts:99-102), with JavaScript's index assignment. */
    method EditExternalLink(index: int, link: PanelLink)
      requires index <= |externalLinks|
      modifies this`externalLinks
      ensures externalLinks == AssignAt(old(externalLinks), index, link)
    {
      externalLinks := AssignAt(externalLinks, index, link);
    }

    /** `deleteExternalLink` (main.ts:104-107): `splice(index, 1)`. */
    method DeleteExternalLink(index: int)
      modifies this`externalLinks
      ensures externalLinks == RemoveAt(old(externalLinks), index)
    {
      externalLinks := RemoveAt(externalLinks, index);
    }

    /** `searchExternalLinks` (main.ts:178-187): the links matching the
        lower-cased query in any of six fields, in their original order. */
    function SearchExternalLinks(query: string): (r: seq<PanelLink>)
      reads this
      ensures IsSubsequence(r, externalLinks)
      ensures forall i | 0 <= i < |r| :: PanelMatches(r[i], Lower(query))
      ensures forall l :: multiset(r)[l] == if PanelMatches(l, Lower(query)) then multiset(externalLinks)[l] else 0
    {
      var q := Lower(query);
      Filter(externalLinks, (l: PanelLink) => PanelMatches(l, q))
    }

    /** `getAllTags` (main.ts:124-134). The tags of each vault file, as the
        metadata cache lists them (none for a file without a cache entry),
        are a parameter. */
    method GetAllTags(vaultFileTags: seq<seq<string>>) returns (allTags: seq<string>)
      ensures allTags == Distinct(TagSources(externalLinks, vaultFileTags))
    {
      allTags := [];
      var i := 0;
      while i < |externalLinks|
        invariant 0 <= i <= |externalLinks|
        invariant allTags == AddAll([], Flatten(MapSeq(externalLinks[..i], LinkTags)))
      {
        AddAllMappedStep(externalLinks, LinkTags, i);
        allTags := AddEach(allTags, externalLinks[i].tags);
        i := i + 1;
      }
      assert externalLinks[..i] == externalLinks;
      var linkTags := Flatten(MapSeq(externalLinks, LinkTags));
      assert Flatten(MapSeq(vaultFileTags[..0], DropFirstAll)) == [];
      assert linkTags + [] == linkTags;
      var k := 0;
      while k < |vaultFileTags|
        invariant 0 <= k <= |vaultFileTags|
        invariant allTags == AddAll([], TagSources(externalLinks, vaultFileTags[..k]))
      {
        VaultTagsStep(externalLinks, vaultFileTags, k);
        allTags := AddEach(allTags, DropFirstAll(vaultFileTags[k]));
        k := k + 1;
      }
      assert vaultFileTags[..k] == vaultFileTags;
    }

    /** The categories field of the settings tab (main.ts:379-381). */
    method SetCategories(value: string)
      modifies this`categories
      ensures categories == ParseCommaList(value)
    {
      categories := ParseCommaList(value);
    }

    /** The audiences field of the settings tab (main.ts:390-392). */
    method SetAudiences(value: string)
      modifies this`audiences
      ensures audiences == ParseCommaList(value)
    {
      audiences := ParseCommaList(value);
    }
  }

  // ---------------------------------------------------------------------------
  // Properties.

  /** One turn of the vault-file loop of `getAllTags`. */
  lemma VaultTagsStep(links: seq<PanelLink>, vaultFileTags: seq<seq<string>>, k: nat)
    requires k < |vaultFileTags|
    ensures AddAll([], TagSources(links, vaultFileTags[..k + 1]))
      == AddAll(AddAll([], TagSources(links, vaultFileTags[..k])), DropFirstAll(vaultFileTags[k]))
  {
    var dropped := DropFirstAll(vaultFileTags[k]);
    var linkTags := Flatten(MapSeq(links, LinkTags));
    var before := Flatten(MapSeq(vaultFileTags[..k], DropFirstAll));
    assert MapSeq(vaultFileTags[..k + 1], DropFirstAll) == MapSeq(vaultFileTags[..k], DropFirstAll) + [dropped];
    FlattenSnoc(MapSeq(vaultFileTags[..k], DropFirstAll), dropped);
    assert linkTags + (before + dropped) == (linkTags + before) + dropped;
    AddAllAppend([], linkTags + before, dropped);
  }

  /** The collected tags hold no duplicates, hold exactly the link tags and
      the '#'-less vault tags, and list the link tags first, in order of
      first occurrence (main.ts:124-134). */
  lemma AllTagsFacts(links: seq<PanelLink>, vaultFileTags: seq<seq<string>>)
    ensures NoDuplicates(Distinct(TagSources(links, vaultFileTags)))
    ensures forall t :: t in Distinct(TagSources(links, vaultFileTags)) <==>
      (exists i | 0 <= i < |links| :: t in links[i].tags) ||
      (exists i, j | 0 <= i < |vaultFileTags| && 0 <= j < |vaultFileTags[i]| :: t == DropFirst(vaultFileTags[i][j]))
    ensures var first := Distinct(Flatten(MapSeq(links, LinkTags)));
      |first| <= |Distinct(TagSources(links, vaultFileTags))| &&
      Distinct(TagSources(links, vaultFileTags))[..|first|] == first
  {
    var linkTags := Flatten(MapSeq(links, LinkTags));
    var vaultTags := Flatten(MapSeq(vaultFileTags, DropFirstAll));
    var all := TagSources(links, vaultFileTags);
    forall t ensures t in all <==> t in linkTags || t in vaultTags {
    }
    forall t ensures t in linkTags <==> exists i | 0 <= i < |links| :: t in links[i].tags {
      FlattenMembers(MapSeq(links, LinkTags), t);
    }
    forall t ensures t in vaultTags <==>
      exists i, j | 0 <= i < |vaultFileTags| && 0 <= j < |vaultFileTags[i]| :: t == DropFirst(vaultFileTags[i][j])
    {
      FlattenMembers(MapSeq(vaultFileTags, DropFirstAll), t);
    }
    assert all[..|linkTags|] == linkTags;
    DistinctPrefix(all, |linkTags|);
  }

  /** The empty query matches every link. */
  lemma SearchEmptyQuery(plugin: DmsPanelPlugin)
    ensures plugin.SearchExternalLinks("") == plugin.externalLinks
  {
    forall i | 0 <= i < |plugin.externalLinks|
      ensures PanelMatches(plugin.externalLinks[i], Lower(""))
    {
      ContainsEmpty(Lower(plugin.externalLinks[i].title));
    }
    FilterKeepsAll(plugin.externalLinks, (l: PanelLink) => PanelMatches(l, Lower("")));
  }

  /** Unlike the service's search, this one also looks at path and notes. */
  lemma SearchFindsPathAndNotes(link: PanelLink, query: string)
    ensures Contains(Lower(link.path), Lower(query)) ==> PanelMatches(link, Lower(query))
    ensures Contains(Lower(link.notes), Lower(query)) ==> PanelMatches(link, Lower(query))
  {
  }

  /** The tags field of the link form shows `tags.join(', ')` and reads the
      text back with `split(',').map(trim)` (main.ts:328-330): a non-empty list
      of trimmed, comma-free tags survives the round trip. */
  lemma TagsFieldRoundTrip(link: PanelLink)
    requires |link.tags| >= 1
    requires forall i | 0 <= i < |link.tags| :: ',' !in link.tags[i] && IsTrimmed(link.tags[i])
    ensures ParseCommaList(Join(link.tags, ", ")) == link.tags
  {
    ParseCommaListJoin(link.tags);
  }

  /** A link without tags does not survive it: it comes back with one empty tag. */
  lemma EmptyTagsFieldRoundTrip(link: PanelLink)
    requires link.tags == []
    ensures ParseCommaList(Join(link.tags, ", ")) == [""]
  {
    ParseCommaListEmpty();
  }
}
