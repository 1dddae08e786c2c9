/** The external-link store of src/ExternalLinkService.ts: the in-memory
    `externalLinks` array with its list operations, search and lookup, the
    proxy note rendered for each link, the choice `openExternalFile` makes,
    and the loop that propagates a new tag into every link. */
module LinkService {
  import opened Seqs
  import opened Strings
  import opened Vaults
  import opened PathSanitizer
  import opened ProxyNotes

  /** `ExternalLink` (src/types.ts:9-17). */
  datatype ExternalLink = ExternalLink(
    title: string,
    path: string,
    category: string,
    audience: seq<string>,
    tags: seq<string>,
    notes: string)

  /** The filter condition of `searchExternalLinks` (src/ExternalLinkService.ts:65-70). */
  predicate MatchesQuery(link: ExternalLink, lowerQuery: string) {
    || Contains(Lower(link.title), lowerQuery)
    || Contains(Lower(link.category), lowerQuery)
    || SomeContains(link.tags, lowerQuery)
    || SomeContains(link.audience, lowerQuery)
  }

  // ---------------------------------------------------------------------------
  // The proxy note of a link (src/ExternalLinkService.ts:105-118).

  function LinkNotePath(folder: string, link: ExternalLink): string {
    folder + "/" + ProxyFileName(link.title)
  }

  function LinkNoteLines(link: ExternalLink): seq<string> {
    [ "---",
      "title: " + link.title,
      "category: " + link.category,
      "audience: " + Join(link.audience, ", "),
      "tags: " + Join(link.tags, ", "),
      "path: " + link.path,
      "---",
      "",
      link.notes,
      "",
      "[Open External Link](" + link.path + ")" ]
  }

  /** The template has no newline after its last line. */
  function LinkNoteContent(link: ExternalLink): string {
    Join(LinkNoteLines(link), "\n")
  }

  /** The note lies in the folder, after a slash that is there even when the
      folder is empty, and is named by the title's slug. */
  lemma LinkNotePathFacts(folder: string, link: ExternalLink)
    ensures StartsWith(LinkNotePath(folder, link), folder + "/")
    ensures EndsWith(LinkNotePath(folder, link), ProxyFileName(link.title))
    ensures folder == "" ==> LinkNotePath(folder, link) == "/" + ProxyFileName(link.title)
  {
    var p := LinkNotePath(folder, link);
    assert p[..|folder + "/"|] == folder + "/";
  }

  /** The text ends with the open-link line, with no newline after it. */
  lemma LinkNoteEndsWithLinkLine(link: ExternalLink)
    ensures EndsWith(LinkNoteContent(link), "[Open External Link](" + link.path + ")")
  {
    var lines := LinkNoteLines(link);
    JoinEndsWithLast(lines, "\n");
  }

  /** No field of the link spans more than one line. */
  predicate SingleLineLink(link: ExternalLink) {
    && '\n' !in link.title && '\n' !in link.category && '\n' !in link.path && '\n' !in link.notes
    && (forall i | 0 <= i < |link.audience| :: '\n' !in link.audience[i])
    && (forall i | 0 <= i < |link.tags| :: '\n' !in link.tags[i])
  }

  /** Read back line by line, the text gives the front-matter lines `title`,
      `category`, `audience`, `tags` and `path`, then the notes, then the link line. */
  lemma LinkNoteRoundTrip(link: ExternalLink)
    requires SingleLineLink(link)
    ensures Split(LinkNoteContent(link), '\n') == LinkNoteLines(link)
  {
    JoinAvoids(link.audience, ", ", '\n');
    JoinAvoids(link.tags, ", ", '\n');
    SplitJoin(LinkNoteLines(link), '\n');
  }

  // ---------------------------------------------------------------------------
  // What `openExternalFile` does (src/ExternalLinkService.ts:77-103).

  datatype OpenAction =
    | OpenNote(notePath: string)         // activeLeaf.openFile on the proxy note
    | NoActiveLeafNotice                 // the proxy note exists but no pane is active
    | OpenInBrowser(url: string)         // window.open(path) for a web address
    | OpenEncodedFile(unencoded: string) // window.open(encodeURI(unencoded))

  predicate IsWebAddress(path: string) {
    StartsWith(path, "http://") || StartsWith(path, "https://")
  }

  function HasPath(path: string): ExternalLink -> bool {
    (l: ExternalLink) => l.path == path
  }

  function HasTitle(title: string): ExternalLink -> bool {
    (l: ExternalLink) => l.title == title
  }

  /** A link gains `tag` at the end of its tags unless it already has it. */
  function WithTag(link: ExternalLink, tag: string): (r: ExternalLink)
    ensures tag in r.tags
    ensures tag in link.tags ==> r == link
    ensures tag !in link.tags ==> r == link.(tags := link.tags + [tag])
  {
    if tag in link.tags then link else link.(tags := link.tags + [tag])
  }

  /** The links after the loop of src/ExternalLinkService.ts:169-174. */
  function TagAll(links: seq<ExternalLink>, tag: string): (r: seq<ExternalLink>)
    ensures |r| == |links|
    ensures forall i | 0 <= i < |r| :: r[i] == WithTag(links[i], tag)
  {
    seq(|links|, i requires 0 <= i < |links| => WithTag(links[i], tag))
  }

  /** The vault after the loop: the proxy note of every link that gains the
      tag is re-rendered, in list order. */
  function RenderTagged(files: map<string, string>, links: seq<ExternalLink>, folder: string, tag: string): map<string, string>
  {
    if links == [] then files
    else
      var before := RenderTagged(files, links[..|links| - 1], folder, tag);
      var link := links[|links| - 1];
      if tag in link.tags then before
      else before[LinkNotePath(folder, WithTag(link, tag)) := LinkNoteContent(WithTag(link, tag))]
  }

  /** One turn of the tag loop for a link that already has the tag: nothing is written. */
  lemma TagLoopKeep(files: map<string, string>, links: seq<ExternalLink>, folder: string, tag: string, i: nat)
    requires i < |links| && tag in links[i].tags
    ensures RenderTagged(files, links[..i + 1], folder, tag) == RenderTagged(files, links[..i], folder, tag)
  {
    assert links[..i + 1][..i] == links[..i];
  }

  /** One turn of the tag loop for a link that gains the tag: its note is re-rendered. */
  lemma TagLoopWrite(files: map<string, string>, links: seq<ExternalLink>, folder: string, tag: string, i: nat)
    requires i < |links| && tag !in links[i].tags
    ensures RenderTagged(files, links[..i + 1], folder, tag) ==
      RenderTagged(files, links[..i], folder, tag)[LinkNotePath(folder, WithTag(links[i], tag)) := LinkNoteContent(WithTag(links[i], tag))]
  {
    assert links[..i + 1][..i] == links[..i];
  }

  class ExternalLinkService {
    var externalLinks: seq<ExternalLink>
    /** The two folders of the plugin's shared settings object, read afresh on
        every call and changed by the settings tab. */
    var proxyNotesFolder: string
    var defaultFolder: string
    const vault: Vault

    constructor (vault: Vault, proxyNotesFolder: string, defaultFolder: string)
      ensures externalLinks == []
      ensures this.vault == vault && this.proxyNotesFolder == proxyNotesFolder && this.defaultFolder == defaultFolder
    {
      externalLinks := [];
      this.vault := vault;
      this.proxyNotesFolder := proxyNotesFolder;
      this.defaultFolder := defaultFolder;
    }

    /** The proxy-notes folder field of the settings tab (src/DMSSettingTab.ts:25-27). */
    method SetProxyNotesFolder(folder: string)
      modifies this`proxyNotesFolder
      ensures proxyNotesFolder == folder
    {
      proxyNotesFolder := folder;
    }

    /** The default-folder field of the settings tab (src/DMSSettingTab.ts:36-38). */
    method SetDefaultFolder(folder: string)
      modifies this`defaultFolder
      ensures defaultFolder == folder
    {
      defaultFolder := folder;
    }

    /** `getExternalLink` (src/ExternalLinkService.ts:42-44): `undefined` outside the array. */
    function GetExternalLink(index: int): (r: Option<ExternalLink>)
      reads this
      ensures r.Some? <==> 0 <= index < |externalLinks|
      ensures r.Some? ==> r.value == externalLinks[index]
    {
      ElementAt(externalLinks, index)
    }

    /** `createProxyNote` (src/ExternalLinkService.ts:105-131): the note is
        modified when it exists and created otherwise, so either way the
        vault holds the rendered text at the note's path. */
    method CreateProxyNote(link: ExternalLink)
      modifies vault
      ensures vault.files == old(vault.files)[LinkNotePath(proxyNotesFolder, link) := LinkNoteContent(link)]
    {
      var filePath := LinkNotePath(proxyNotesFolder, link);
      var content := LinkNoteContent(link);
      if filePath in vault.files {
        vault.Modify(filePath, content);
      } else {
        var _ := vault.Create(filePath, content);
      }
    }

    /** `addExternalLink` (src/ExternalLinkService.ts:46-50). */
    method AddExternalLink(link: ExternalLink)
      modifies this`externalLinks, vault
      ensures externalLinks == old(externalLinks) + [link]
      ensures vault.files == old(vault.files)[LinkNotePath(proxyNotesFolder, link) := LinkNoteContent(link)]
    {
      externalLinks := externalLinks + [link];
      CreateProxyNote(link);
    }

    /** `editExternalLink` (src/ExternalLinkService.ts:52-56), with JavaScript's
        index assignment: in range it replaces the entry, one past the end it
        appends, and a negative index leaves the entries as they are. */
    method EditExternalLink(index: int, updatedLink: ExternalLink)
      requires index <= |externalLinks|
      modifies this`externalLinks, vault
      ensures externalLinks == AssignAt(old(externalLinks), index, updatedLink)
      ensures vault.files == old(vault.files)[LinkNotePath(proxyNotesFolder, updatedLink) := LinkNoteContent(updatedLink)]
    {
      externalLinks := AssignAt(externalLinks, index, updatedLink);
      CreateProxyNote(updatedLink);
    }

    /** `deleteExternalLink` (src/ExternalLinkService.ts:58-61): `splice(index, 1)`;
        the proxy note stays in the vault. */
    method DeleteExternalLink(index: int)
      modifies this`externalLinks
      ensures externalLinks == RemoveAt(old(externalLinks), index)
      ensures unchanged(vault)
    {
      externalLinks := RemoveAt(externalLinks, index);
    }

    /** `searchExternalLinks` (src/ExternalLinkService.ts:63-71): the links
        matching the lower-cased query, in their original order, each as often
        as it occurs. */
    function SearchExternalLinks(query: string): (r: seq<ExternalLink>)
      reads this
      ensures IsSubsequence(r, externalLinks)
      ensures forall i | 0 <= i < |r| :: MatchesQuery(r[i], Lower(query))
      ensures forall l :: multiset(r)[l] == if MatchesQuery(l, Lower(query)) then multiset(externalLinks)[l] else 0
    {
      var q := Lower(query);
      Filter(externalLinks, (l: ExternalLink) => MatchesQuery(l, q))
    }

    /** `findExternalLinkByTitle` (src/ExternalLinkService.ts:73-75). */
    function FindExternalLinkByTitle(title: string): (r: Option<ExternalLink>)
      reads this
      ensures r.None? <==> forall i | 0 <= i < |externalLinks| :: externalLinks[i].title != title
      ensures r.Some? ==> exists i | 0 <= i < |externalLinks| ::
        externalLinks[i] == r.value && r.value.title == title &&
        forall j | 0 <= j < i :: externalLinks[j].title != title
    {
      Find(externalLinks, HasTitle(title))
    }

    /** `openExternalFile` (src/ExternalLinkService.ts:77-103). The proxy note
        is looked up under `defaultFolder`; whether a pane is active is a
        parameter. */
    function OpenExternalFile(path: string, hasActiveLeaf: bool): (a: OpenAction)
      reads this, vault
      ensures (a.OpenNote? || a.NoActiveLeafNotice?) <==>
        exists i | 0 <= i < |externalLinks| ::
          && externalLinks[i].path == path
          && (forall j | 0 <= j < i :: externalLinks[j].path != path)
          && LinkNotePath(defaultFolder, externalLinks[i]) in vault.files
      ensures a.OpenNote? ==> hasActiveLeaf && a.notePath in vault.files
      ensures a.OpenNote? ==>
        exists i | 0 <= i < |externalLinks| ::
          && externalLinks[i].path == path
          && (forall j | 0 <= j < i :: externalLinks[j].path != path)
          && a.notePath == LinkNotePath(defaultFolder, externalLinks[i])
      ensures a.NoActiveLeafNotice? ==> !hasActiveLeaf
      ensures a.OpenInBrowser? ==> IsWebAddress(path) && a.url == path
      ensures a.OpenEncodedFile? ==> !IsWebAddress(path) && a.unencoded == "file://" + SanitizeFilePath(path)
    {
      var found := FirstIndex(externalLinks, HasPath(path));
      if found.Some? && LinkNotePath(defaultFolder, externalLinks[found.value]) in vault.files then
        if hasActiveLeaf then OpenNote(LinkNotePath(defaultFolder, externalLinks[found.value]))
        else NoActiveLeafNotice
      else if IsWebAddress(path) then OpenInBrowser(path)
      else OpenEncodedFile("file://" + SanitizeFilePath(path))
    }

    /** The tag-propagation loop of `addNewTag` (src/ExternalLinkService.ts:168-175). */
    method AddNewTag(tag: string)
      modifies this`externalLinks, vault
      ensures externalLinks == TagAll(old(externalLinks), tag)
      ensures vault.files == RenderTagged(old(vault.files), old(externalLinks), proxyNotesFolder, tag)
    {
      ghost var links0, files0 := externalLinks, vault.files;
      var i := 0;
      while i < |externalLinks|
        invariant 0 <= i <= |externalLinks| == |links0|
        invariant forall j | 0 <= j < i :: externalLinks[j] == WithTag(links0[j], tag)
        invariant forall j | i <= j < |links0| :: externalLinks[j] == links0[j]
        invariant vault.files == RenderTagged(files0, links0[..i], proxyNotesFolder, tag)
      {
        var link := externalLinks[i];
        assert link == links0[i];
        if tag !in link.tags {
          TagLoopWrite(files0, links0, proxyNotesFolder, tag, i);
          var updated := link.(tags := link.tags + [tag]);
          assert updated == WithTag(links0[i], tag);
          externalLinks := externalLinks[i := updated];
          CreateProxyNote(updated);
        } else {
          TagLoopKeep(files0, links0, proxyNotesFolder, tag, i);
        }
        i := i + 1;
      }
      assert links0[..i] == links0;
    }
  }

  // ---------------------------------------------------------------------------
  // Properties.

  /** The empty query matches every link, so it returns the whole list. */
  lemma SearchEmptyQuery(service: ExternalLinkService)
    ensures service.SearchExternalLinks("") == service.externalLinks
  {
    forall i | 0 <= i < |service.externalLinks|
      ensures MatchesQuery(service.externalLinks[i], Lower(""))
    {
      ContainsEmpty(Lower(service.externalLinks[i].title));
    }
    FilterKeepsAll(service.externalLinks, (l: ExternalLink) => MatchesQuery(l, Lower("")));
  }

  /** Path and notes take no part in the search. */
  lemma SearchIgnoresPathAndNotes(link: ExternalLink, path: string, notes: string, query: string)
    ensures MatchesQuery(link.(path := path, notes := notes), Lower(query)) == MatchesQuery(link, Lower(query))
  {
  }

  /** The search ignores letter case in the query and in the fields. */
  lemma SearchIgnoresCase(link: ExternalLink, query: string)
    ensures MatchesQuery(link, Lower(Lower(query))) == MatchesQuery(link, Lower(query))
    ensures MatchesQuery(link.(title := Lower(link.title)), Lower(query)) == MatchesQuery(link, Lower(query))
    ensures MatchesQuery(LowerFields(link), Lower(query)) == MatchesQuery(link, Lower(query))
  {
    LowerIdempotent(query);
    SearchSeesOnlyLowerCase(LowerFields(link), link, Lower(query));
  }

  /** `link` with every searched field lower-cased. */
  function LowerFields(link: ExternalLink): ExternalLink {
    link.(title := Lower(link.title), category := Lower(link.category),
          tags := MapSeq(link.tags, Lower), audience := MapSeq(link.audience, Lower))
  }

  /** Two links whose searched fields agree after lower-casing match the same
      queries: only `toLowerCase()` of title, category, tags and audience is
      tested (src/ExternalLinkService.ts:65-70). */
  lemma SearchSeesOnlyLowerCase(link: ExternalLink, other: ExternalLink, lowerQuery: string)
    requires Lower(other.title) == Lower(link.title) && Lower(other.category) == Lower(link.category)
    requires |other.tags| == |link.tags| && forall i | 0 <= i < |link.tags| :: Lower(other.tags[i]) == Lower(link.tags[i])
    requires |other.audience| == |link.audience| &&
      forall i | 0 <= i < |link.audience| :: Lower(other.audience[i]) == Lower(link.audience[i])
    ensures MatchesQuery(other, lowerQuery) == MatchesQuery(link, lowerQuery)
  {

  }

  /** After the loop every link carries the tag: those that had it are
      untouched, the others got it appended once at the end, and titles,
      paths and the rest of each link are kept. */
  lemma TagAllEveryLinkTagged(links: seq<ExternalLink>, tag: string)
    ensures forall i | 0 <= i < |links| :: tag in TagAll(links, tag)[i].tags
    ensures forall i | 0 <= i < |links| && tag in links[i].tags :: TagAll(links, tag)[i] == links[i]
    ensures forall i | 0 <= i < |links| && tag !in links[i].tags ::
      TagAll(links, tag)[i].tags == links[i].tags + [tag] &&
      multiset(TagAll(links, tag)[i].tags)[tag] == 1
    ensures forall i | 0 <= i < |links| ::
      TagAll(links, tag)[i].(tags := links[i].tags) == links[i]
  {
    forall i | 0 <= i < |links| && tag !in links[i].tags
      ensures multiset(TagAll(links, tag)[i].tags)[tag] == 1
    {
      assert multiset(links[i].tags)[tag] == 0;
    }
  }

  /** Adding the same tag again changes nothing. */
  lemma TagAllIdempotent(links: seq<ExternalLink>, tag: string)
    ensures TagAll(TagAll(links, tag), tag) == TagAll(links, tag)
  {
  }

  /** Only changed links have their proxy note written: a path that is not the
      note of a link lacking the tag keeps its text, and no other path appears. */
  lemma {:induction false} RenderTaggedWritesOnlyChangedNotes(files: map<string, string>, links: seq<ExternalLink>, folder: string, tag: string)
    ensures var r := RenderTagged(files, links, folder, tag);
      && (forall p | p in files &&
            (forall i | 0 <= i < |links| && tag !in links[i].tags :: LinkNotePath(folder, links[i]) != p) ::
            p in r && r[p] == files[p])
      && (forall p | p in r && p !in files ::
            exists i | 0 <= i < |links| :: tag !in links[i].tags && LinkNotePath(folder, links[i]) == p)
  {
    if links != [] {
      var init := links[..|links| - 1];
      RenderTaggedWritesOnlyChangedNotes(files, init, folder, tag);
      assert forall i | 0 <= i < |init| :: init[i] == links[i];
    }
  }

  /** With every link already tagged, the loop leaves links and vault alone. */
  lemma {:induction false} RenderTaggedNoChange(files: map<string, string>, links: seq<ExternalLink>, folder: string, tag: string)
    requires forall i | 0 <= i < |links| :: tag in links[i].tags
    ensures RenderTagged(files, links, folder, tag) == files
    ensures TagAll(links, tag) == links
  {
    if links != [] {
      RenderTaggedNoChange(files, links[..|links| - 1], folder, tag);
    }
  }

  /** The text a changed link's note receives mentions the new tag. */
  lemma TaggedNoteMentionsTag(link: ExternalLink, tag: string)
    ensures Contains(LinkNoteContent(WithTag(link, tag)), "tags: " + Join(WithTag(link, tag).tags, ", "))
  {
    JoinContainsPart(LinkNoteLines(WithTag(link, tag)), "\n", 4);
  }

  /** The file target of `openExternalFile` has the `file://` scheme and no
      whitespace, parenthesis or backslash after it. */
  lemma OpenFileTargetIsClean(service: ExternalLinkService, path: string, hasActiveLeaf: bool)
    ensures var a := service.OpenExternalFile(path, hasActiveLeaf);
      a.OpenEncodedFile? ==>
        && StartsWith(a.unencoded, "file://")
        && forall i | 7 <= i < |a.unencoded| ::
             a.unencoded[i] != '\\' && !IsJsWhitespace(a.unencoded[i]) && a.unencoded[i] != '(' && a.unencoded[i] != ')'
  {
    var s := SanitizeFilePath(path);
    SanitizeRemovesSpecials(path);
    assert forall i | 7 <= i < |"file://" + s| :: ("file://" + s)[i] == s[i - 7];
  }

  /** A path no link has is opened directly: as a web address when it starts
      with `http://` or `https://`, otherwise as a file. */
  lemma OpenUnknownPath(service: ExternalLinkService, path: string, hasActiveLeaf: bool)
    requires forall i | 0 <= i < |service.externalLinks| :: service.externalLinks[i].path != path
    ensures service.OpenExternalFile(path, hasActiveLeaf) ==
      if IsWebAddress(path) then OpenInBrowser(path) else OpenEncodedFile("file://" + SanitizeFilePath(path))
  {
  }
}
