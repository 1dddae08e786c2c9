/** Proxy notes (src/ProxyNoteManager.ts): the markdown note the plugin keeps
    in the vault for an external document, its file name, its target path,
    its text, and the prefix test that decides whether a file is one. */
module ProxyNotes {
  import opened Seqs
  import opened Strings
  import opened Vaults

  predicate IsAsciiAlphanumeric(c: char) {
    ('a' <= c <= 'z') || ('A' <= c <= 'Z') || ('0' <= c <= '9')
  }

  predicate NotAsciiAlphanumeric(c: char) {
    !IsAsciiAlphanumeric(c)
  }

  /** `title.replace(/[^a-zA-Z0-9]/g, '_')`. */
  function SlugStem(title: string): string {
    ReplaceEach(title, NotAsciiAlphanumeric, "_")
  }

  /** `generateFileName` (src/ProxyNoteManager.ts:62-65). */
  function ProxyFileName(title: string): string {
    SlugStem(title) + ".md"
  }

  /** The stem has the title's length; letters and digits stay, every other
      character becomes exactly one '_'. */
  lemma SlugStemShape(title: string)
    ensures |SlugStem(title)| == |title|
    ensures forall i | 0 <= i < |title| ::
      SlugStem(title)[i] == if IsAsciiAlphanumeric(title[i]) then title[i] else '_'
  {
    forall i | 0 <= i < |title|
      ensures SlugStem(title)[i] == if IsAsciiAlphanumeric(title[i]) then title[i] else '_'
    {
      ReplaceEachAt(title, NotAsciiAlphanumeric, "_", i);
    }
  }

  /** The stem holds only `[A-Za-z0-9_]`. */
  lemma SlugStemAlphabet(title: string)
    ensures forall i | 0 <= i < |SlugStem(title)| ::
      IsAsciiAlphanumeric(SlugStem(title)[i]) || SlugStem(title)[i] == '_'
  {
    SlugStemShape(title);
  }

  /** Applying the rule to a stem changes nothing more. */
  lemma SlugStemIdempotent(title: string)
    ensures SlugStem(SlugStem(title)) == SlugStem(title)
  {
    var s := SlugStem(title);
    SlugStemShape(title);
    SlugStemShape(s);
  }

  /** Two titles get the same file name exactly when they have the same
      length and agree wherever either of them has a letter or digit. */
  lemma ProxyFileNameCollides(a: string, b: string)
    ensures ProxyFileName(a) == ProxyFileName(b) <==>
      |a| == |b| && forall i | 0 <= i < |a| ::
        (IsAsciiAlphanumeric(a[i]) || IsAsciiAlphanumeric(b[i])) ==> a[i] == b[i]
  {
    SlugStemShape(a);
    SlugStemShape(b);
    if |a| == |b| && forall i | 0 <= i < |a| ::
        (IsAsciiAlphanumeric(a[i]) || IsAsciiAlphanumeric(b[i])) ==> a[i] == b[i] {
      assert SlugStem(a) == SlugStem(b);
    }
    if ProxyFileName(a) == ProxyFileName(b) {
      assert SlugStem(a) == ProxyFileName(a)[..|ProxyFileName(a)| - 3];
      assert SlugStem(b) == ProxyFileName(b)[..|ProxyFileName(b)| - 3];
      forall i | 0 <= i < |a| && (IsAsciiAlphanumeric(a[i]) || IsAsciiAlphanumeric(b[i]))
        ensures a[i] == b[i]
      {
        assert SlugStem(a)[i] == SlugStem(b)[i];
      }
    }
  }

  /** The name ends in `.md`, three characters longer than the title; and
      distinct titles such as "a b" and "a-b" share one name. */
  lemma ProxyFileNameFacts(title: string)
    ensures EndsWith(ProxyFileName(title), ".md")
    ensures |ProxyFileName(title)| == |title| + 3
    ensures ProxyFileName("a b") == ProxyFileName("a-b")
  {
    SlugStemShape(title);
    ProxyFileNameCollides("a b", "a-b");
  }

  // ---------------------------------------------------------------------------
  // The note text.

  /** The `metadata` object the manager renders. A field left out and an
      empty string are both falsy and render the same; a missing size and a
      size of 0 both render `Unknown`. */
  datatype NoteMetadata = NoteMetadata(
    title: string,
    tags: Option<seq<string>>,
    fileType: string,
    created: string,
    modified: string,
    size: Option<int>,
    summary: string,
    notes: string)

  /** `value || fallback` for a string. */
  function OrDefault(value: string, fallback: string): (r: string)
    ensures value == "" ==> r == fallback
    ensures value != "" ==> r == value
  {
    if value == "" then fallback else value
  }

  /** `metadata.tags ? metadata.tags.join(', ') : ''`; an empty array is truthy and joins to "". */
  function TagsText(tags: Option<seq<string>>): string {
    match tags
    case None => ""
    case Some(ts) => Join(ts, ", ")
  }

  /** `metadata.size || 'Unknown'`. */
  function SizeText(size: Option<int>): string {
    match size
    case None => "Unknown"
    case Some(n) => if n == 0 then "Unknown" else IntToString(n)
  }

  /** The front matter of the template (src/ProxyNoteManager.ts:69-73). */
  function FrontMatter(externalLink: string, m: NoteMetadata): seq<string> {
    [ "---",
      "title: " + m.title,
      "external-link: " + externalLink,
      "tags: " + TagsText(m.tags),
      "---" ]
  }

  /** The heading and the link line (src/ProxyNoteManager.ts:74-78). */
  function LinkSection(externalLink: string, m: NoteMetadata): seq<string> {
    [ "",
      "# " + m.title,
      "",
      "[Open External Link](" + externalLink + ")",
      "" ]
  }

  /** The metadata list (src/ProxyNoteManager.ts:79-83). */
  function MetadataSection(m: NoteMetadata): seq<string> {
    [ "## Metadata",
      "- **Type**: " + OrDefault(m.fileType, "Unknown"),
      "- **Created**: " + OrDefault(m.created, "Unknown"),
      "- **Last Modified**: " + OrDefault(m.modified, "Unknown"),
      "- **Size**: " + SizeText(m.size) ]
  }

  /** The summary and notes sections (src/ProxyNoteManager.ts:84-90). */
  function TextSections(m: NoteMetadata): seq<string> {
    [ "",
      "## Summary",
      OrDefault(m.summary, "No summary available."),
      "",
      "## Notes",
      OrDefault(m.notes, "No notes available."),
      "" ]
  }

  /** The lines of `generateProxyNoteContent` (src/ProxyNoteManager.ts:67-91);
      the template ends with a newline, hence the final empty line. */
  function ContentLines(externalLink: string, m: NoteMetadata): seq<string> {
    FrontMatter(externalLink, m) + LinkSection(externalLink, m) + MetadataSection(m) + TextSections(m)
  }

  function ProxyNoteContent(externalLink: string, m: NoteMetadata): string {
    Join(ContentLines(externalLink, m), "\n")
  }

  /** The text opens with the front-matter fence and the title line. */
  lemma ContentStartsWithTitle(externalLink: string, m: NoteMetadata)
    ensures StartsWith(ProxyNoteContent(externalLink, m), "---\ntitle: " + m.title)
  {
    var lines := ContentLines(externalLink, m);
    var rest := Join(lines[2..], "\n");
    assert lines[1..][1..] == lines[2..];
    assert Join(lines[1..], "\n") == ("title: " + m.title) + "\n" + rest;
    assert ProxyNoteContent(externalLink, m) == "---" + "\n" + Join(lines[1..], "\n");
    assert ProxyNoteContent(externalLink, m) == ("---\ntitle: " + m.title) + ("\n" + rest);
  }

  /** Every line of the template occurs in the text. */
  lemma ContentHasLine(externalLink: string, m: NoteMetadata, k: nat)
    requires k < |ContentLines(externalLink, m)|
    ensures Contains(ProxyNoteContent(externalLink, m), ContentLines(externalLink, m)[k])
  {
    JoinContainsPart(ContentLines(externalLink, m), "\n", k);
  }

  /** The link appears in the front matter and as the target of the link line. */
  lemma ContentHasLink(externalLink: string, m: NoteMetadata)
    ensures Contains(ProxyNoteContent(externalLink, m), "external-link: " + externalLink)
    ensures Contains(ProxyNoteContent(externalLink, m), "[Open External Link](" + externalLink + ")")
  {
    ContentHasLine(externalLink, m, 2);
    ContentHasLine(externalLink, m, 8);
  }

  /** Falsy fields render their defaults (src/ProxyNoteManager.ts:80-89). */
  lemma ContentDefaults(externalLink: string, m: NoteMetadata)
    ensures m.fileType == "" ==> Contains(ProxyNoteContent(externalLink, m), "- **Type**: Unknown")
    ensures m.created == "" ==> Contains(ProxyNoteContent(externalLink, m), "- **Created**: Unknown")
    ensures m.modified == "" ==> Contains(ProxyNoteContent(externalLink, m), "- **Last Modified**: Unknown")
    ensures (m.size == None || m.size == Some(0)) ==> Contains(ProxyNoteContent(externalLink, m), "- **Size**: Unknown")
    ensures m.summary == "" ==> Contains(ProxyNoteContent(externalLink, m), "No summary available.")
    ensures m.notes == "" ==> Contains(ProxyNoteContent(externalLink, m), "No notes available.")
  {
    TypeDefault(externalLink, m);
    CreatedDefault(externalLink, m);
    ModifiedDefault(externalLink, m);
    SizeDefault(externalLink, m);
    SummaryDefault(externalLink, m);
    NotesDefault(externalLink, m);
  }

  // One lemma per defaulted field, so that each reads its own line of the template.

  lemma TypeDefault(externalLink: string, m: NoteMetadata)
    ensures m.fileType == "" ==> Contains(ProxyNoteContent(externalLink, m), "- **Type**: Unknown")
  {
    ContentHasLine(externalLink, m, 11);
    assert m.fileType == "" ==> ContentLines(externalLink, m)[11] == "- **Type**: Unknown";
  }

  lemma CreatedDefault(externalLink: string, m: NoteMetadata)
    ensures m.created == "" ==> Contains(ProxyNoteContent(externalLink, m), "- **Created**: Unknown")
  {
    ContentHasLine(externalLink, m, 12);
    assert m.created == "" ==> ContentLines(externalLink, m)[12] == "- **Created**: Unknown";
  }

  lemma ModifiedDefault(externalLink: string, m: NoteMetadata)
    ensures m.modified == "" ==> Contains(ProxyNoteContent(externalLink, m), "- **Last Modified**: Unknown")
  {
    ContentHasLine(externalLink, m, 13);
    assert m.modified == "" ==> ContentLines(externalLink, m)[13] == "- **Last Modified**: Unknown";
  }

  lemma SizeDefault(externalLink: string, m: NoteMetadata)
    ensures (m.size == None || m.size == Some(0)) ==> Contains(ProxyNoteContent(externalLink, m), "- **Size**: Unknown")
  {
    ContentHasLine(externalLink, m, 14);
    assert (m.size == None || m.size == Some(0)) ==> ContentLines(externalLink, m)[14] == "- **Size**: Unknown";
  }

  lemma SummaryDefault(externalLink: string, m: NoteMetadata)
    ensures m.summary == "" ==> Contains(ProxyNoteContent(externalLink, m), "No summary available.")
  {
    ContentHasLine(externalLink, m, 17);
  }

  lemma NotesDefault(externalLink: string, m: NoteMetadata)
    ensures m.notes == "" ==> Contains(ProxyNoteContent(externalLink, m), "No notes available.")
  {
    ContentHasLine(externalLink, m, 20);
  }

  /** Absent tags leave the tags value empty: the line ends right after `tags: `. */
  lemma ContentEmptyTags(externalLink: string, m: NoteMetadata)
    requires m.tags.None?
    ensures Contains(ProxyNoteContent(externalLink, m), "tags: \n")
  {
    var lines := ContentLines(externalLink, m);
    JoinContainsPartThenSep(lines, "\n", 3);
    assert lines[3] + "\n" == "tags: \n";
  }

  /** No field spans more than one line. */
  predicate SingleLineFields(externalLink: string, m: NoteMetadata) {
    && '\n' !in externalLink && '\n' !in m.title
    && (m.tags.Some? ==> forall i | 0 <= i < |m.tags.value| :: '\n' !in m.tags.value[i])
    && '\n' !in m.fileType && '\n' !in m.created && '\n' !in m.modified
    && '\n' !in m.summary && '\n' !in m.notes
  }

  predicate NoLineBreaks(lines: seq<string>) {
    forall i | 0 <= i < |lines| :: '\n' !in lines[i]
  }

  /** The front matter, heading and link lines hold no line break. */
  lemma FrontLinesSingle(externalLink: string, m: NoteMetadata)
    requires SingleLineFields(externalLink, m)
    ensures NoLineBreaks(FrontMatter(externalLink, m))
    ensures NoLineBreaks(LinkSection(externalLink, m))
  {
    if m.tags.Some? {
      JoinAvoids(m.tags.value, ", ", '\n');
    }
  }

  /** The metadata, summary and notes lines hold no line break. */
  lemma BackLinesSingle(externalLink: string, m: NoteMetadata)
    requires SingleLineFields(externalLink, m)
    ensures NoLineBreaks(MetadataSection(m))
    ensures NoLineBreaks(TextSections(m))
  {
    MetadataLinesSingle(m);
    TextLinesSingle(m);
  }

  lemma MetadataLinesSingle(m: NoteMetadata)
    requires '\n' !in m.fileType && '\n' !in m.created && '\n' !in m.modified
    ensures NoLineBreaks(MetadataSection(m))
  {
    SizeTextSingle(m.size);
  }

  lemma TextLinesSingle(m: NoteMetadata)
    requires '\n' !in m.summary && '\n' !in m.notes
    ensures NoLineBreaks(TextSections(m))
  {
  }

  /** The size is written on one line: digits with at most a sign, or `Unknown`. */
  lemma SizeTextSingle(size: Option<int>)
    ensures '\n' !in SizeText(size)
  {
    if size.Some? && size.value != 0 {
      var r := IntToString(size.value);
      if size.value < 0 {
        assert r == "-" + NatToDecimal(-size.value);
        assert '\n' !in NatToDecimal(-size.value);
      } else {
        assert '\n' !in NatToDecimal(size.value);
      }
    }
  }

  lemma NoLineBreaksConcat(a: seq<string>, b: seq<string>)
    requires NoLineBreaks(a) && NoLineBreaks(b)
    ensures NoLineBreaks(a + b)
  {
    forall i | 0 <= i < |a + b| ensures '\n' !in (a + b)[i] {
      if i >= |a| { assert (a + b)[i] == b[i - |a|]; }
    }
  }

  /** Reading the text back line by line gives the template's lines, so each
      field can be found again on its own line. */
  lemma ContentLinesRoundTrip(externalLink: string, m: NoteMetadata)
    requires SingleLineFields(externalLink, m)
    ensures Split(ProxyNoteContent(externalLink, m), '\n') == ContentLines(externalLink, m)
  {
    var lines := ContentLines(externalLink, m);
    FrontLinesSingle(externalLink, m);
    BackLinesSingle(externalLink, m);
    NoLineBreaksConcat(FrontMatter(externalLink, m), LinkSection(externalLink, m));
    NoLineBreaksConcat(FrontMatter(externalLink, m) + LinkSection(externalLink, m), MetadataSection(m));
    NoLineBreaksConcat(FrontMatter(externalLink, m) + LinkSection(externalLink, m) + MetadataSection(m), TextSections(m));
    SplitJoin(lines, '\n');
  }

  // ---------------------------------------------------------------------------
  // The manager.

  class ProxyNoteManager {
    var proxyNotesPath: string
    const vault: Vault

    constructor (vault: Vault, proxyNotesPath: string)
      ensures this.vault == vault && this.proxyNotesPath == proxyNotesPath
    {
      this.vault := vault;
      this.proxyNotesPath := proxyNotesPath;
    }

    /** `updateProxyNotesPath` (src/ProxyNoteManager.ts:12-14): later tests and
        path choices use the new folder; nothing else changes. */
    method UpdateProxyNotesPath(newPath: string)
      modifies this`proxyNotesPath
      ensures proxyNotesPath == newPath
      ensures forall f :: IsProxyNote(f) <==> StartsWith(f, newPath)
      ensures forall t :: ProxyNotePath(t) == TargetPath(newPath, t)
      ensures unchanged(vault)
    {
      proxyNotesPath := newPath;
    }

    /** `isProxyNote` (src/ProxyNoteManager.ts:16-18): a bare prefix test on the path. */
    predicate IsProxyNote(filePath: string)
      reads this
    {
      StartsWith(filePath, proxyNotesPath)
    }

    /** The target path of `createProxyNote` (src/ProxyNoteManager.ts:21-22). */
    function ProxyNotePath(title: string): string
      reads this
    {
      TargetPath(proxyNotesPath, title)
    }

    /** `createProxyNote` (src/ProxyNoteManager.ts:20-32): `vault.create` fails
        when the target exists, and the error is passed on to the caller. */
    method CreateProxyNote(externalLink: string, metadata: NoteMetadata) returns (r: Result<string, string>)
      modifies vault
      ensures var p := ProxyNotePath(metadata.title);
        && (p in old(vault.files) ==> r.Err? && vault.files == old(vault.files))
        && (p !in old(vault.files) ==>
              r == Ok(p) && vault.files == old(vault.files)[p := ProxyNoteContent(externalLink, metadata)])
    {
      var filePath := ProxyNotePath(metadata.title);
      var content := ProxyNoteContent(externalLink, metadata);
      var created := vault.Create(filePath, content);
      match created
      case Ok(_) =>
        r := Ok(filePath);
      case Err(e) =>
        r := Err(e);
    }

    /** `updateProxyNote` (src/ProxyNoteManager.ts:34-42): re-renders the note in place. */
    method UpdateProxyNote(filePath: string, externalLink: string, metadata: NoteMetadata)
      requires filePath in vault.files
      modifies vault
      ensures vault.files == old(vault.files)[filePath := ProxyNoteContent(externalLink, metadata)]
    {
      vault.Modify(filePath, ProxyNoteContent(externalLink, metadata));
    }
  }

  /** `proxyNotesPath ? proxyNotesPath + '/' + fileName : fileName`. */
  function TargetPath(folder: string, title: string): string {
    if folder == "" then ProxyFileName(title) else folder + "/" + ProxyFileName(title)
  }

  /** The note lands in the folder (so the prefix test recognises it), with a
      separating slash only when there is a folder, and its name last. */
  lemma TargetPathFacts(folder: string, title: string)
    ensures StartsWith(TargetPath(folder, title), folder)
    ensures EndsWith(TargetPath(folder, title), ProxyFileName(title))
    ensures folder == "" ==> TargetPath(folder, title) == ProxyFileName(title)
    ensures folder != "" ==> TargetPath(folder, title)[|folder|] == '/'
  {
    var p := TargetPath(folder, title);
    if folder != "" {
      assert p == folder + ("/" + ProxyFileName(title));
      assert p[..|folder|] == folder;
    }
  }

  /** With an empty folder every file is a proxy note; with "DMS", so is
      "DMS2/x.md", which lies outside the folder. */
  lemma ProxyNotePrefixTest(m: ProxyNoteManager, f: string)
    ensures m.proxyNotesPath == "" ==> m.IsProxyNote(f)
    ensures m.proxyNotesPath == "DMS" ==> m.IsProxyNote("DMS2/x.md")
  {
    if m.proxyNotesPath == "DMS" {
      assert "DMS2/x.md"[..3] == "DMS";
    }
  }

  /** The note the manager creates counts as a proxy note. */
  lemma CreatedNoteIsProxyNote(m: ProxyNoteManager, title: string)
    ensures m.IsProxyNote(m.ProxyNotePath(title))
  {
    TargetPathFacts(m.proxyNotesPath, title);
  }
}
