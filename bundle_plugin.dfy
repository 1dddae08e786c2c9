/** The plugin as compiled in main.js: links whose metadata is parsed JSON,
    the timestamped name of a new note, the combined search over notes and
    links, and the tag set of the links. */
module BundlePlugin {
  import opened Seqs
  import opened Strings
  import opened Vaults

  // ---------------------------------------------------------------------------
  // Links and their JSON metadata.

  /** A value `JSON.parse` can return. An object lists its members in the
      order `Object.values` enumerates them. */
  datatype JsonValue =
    | JNull
    | JBool(b: bool)
    | JNumber(n: int)
    | JString(s: string)
    | JArray(items: seq<JsonValue>)
    | JObject(members: seq<(string, JsonValue)>)

  /** The link record `addExternalLink` pushes (main.js:136-140). */
  datatype BundleLink = BundleLink(path: string, metadata: JsonValue, tags: seq<string>)

  /** A JavaScript exception thrown by the search. */
  const TypeError: string := "TypeError"

  /** `Object.values(v)`: it throws on `null`, has no entries for a boolean or
      a number, one one-character string per character of a string, and the
      items of an array or the member values of an object. */
  function ObjectValues(v: JsonValue): (r: Result<seq<JsonValue>, string>)
    ensures r.Err? <==> v.JNull?
    ensures v.JString? ==> r.Ok? && |r.value| == |v.s| && forall i | 0 <= i < |v.s| :: r.value[i] == JString([v.s[i]])
    ensures v.JObject? ==> r.Ok? && |r.value| == |v.members| && forall i | 0 <= i < |v.members| :: r.value[i] == v.members[i].1
    ensures (v.JBool? || v.JNumber?) ==> r == Ok([])
    ensures v.JArray? ==> r == Ok(v.items)
  {
    match v
    case JNull => Err(TypeError)
    case JBool(_) => Ok([])
    case JNumber(_) => Ok([])
    case JString(s) => Ok(seq(|s|, i requires 0 <= i < |s| => JString([s[i]])))
    case JArray(items) => Ok(items)
    case JObject(members) => Ok(seq(|members|, i requires 0 <= i < |members| => members[i].1))
  }

  /** `v` is a string that contains `lowerQuery` once lower-cased. */
  predicate StringContains(v: JsonValue, lowerQuery: string) {
    v.JString? && Contains(Lower(v.s), lowerQuery)
  }

  /** `values.some(value => value.toLowerCase().includes(lowerQuery))`: the
      values are tried in order, the first hit ends the search, and a value
      that is not a string throws, since it has no `toLowerCase`. */
  function ValuesSome(values: seq<JsonValue>, lowerQuery: string): (r: Result<bool, string>)
    ensures r == Ok(true) <==> exists i | 0 <= i < |values| ::
      StringContains(values[i], lowerQuery) && forall j | 0 <= j < i :: values[j].JString?
    ensures r == Ok(false) <==> forall i | 0 <= i < |values| ::
      values[i].JString? && !StringContains(values[i], lowerQuery)
    ensures r.Err? ==> r.error == TypeError
  {
    if values == [] then Ok(false)
    else if !values[0].JString? then Err(TypeError)
    else if Contains(Lower(values[0].s), lowerQuery) then Ok(true)
    else
      var rest := ValuesSome(values[1..], lowerQuery);
      assert forall i | 1 <= i < |values| :: values[1..][i - 1] == values[i];
      rest
  }

  /** The link test of `performSearch` (main.js:165-167): the path, then the
      metadata values, then the tags, each tried only when the one before
      missed. */
  function LinkMatches(link: BundleLink, lowerQuery: string): Result<bool, string> {
    if Contains(Lower(link.path), lowerQuery) then Ok(true)
    else match ObjectValues(link.metadata)
      case Err(e) => Err(e)
      case Ok(values) =>
        match ValuesSome(values, lowerQuery)
        case Err(e) => Err(e)
        case Ok(true) => Ok(true)
        case Ok(false) => Ok(SomeContains(link.tags, lowerQuery))
  }

  predicate LinkHit(link: BundleLink, lowerQuery: string) {
    LinkMatches(link, lowerQuery) == Ok(true)
  }

  /** The link test as the function `filter` is given. */
  function LinkTest(lowerQuery: string): BundleLink -> bool {
    l => LinkHit(l, lowerQuery)
  }

  /** `links.filter(...)` with a test that can throw: the first link whose
      test throws aborts the filter; otherwise the links that pass, in order. */
  function FilterLinks(links: seq<BundleLink>, lowerQuery: string): (r: Result<seq<BundleLink>, string>)
    ensures r.Ok? <==> forall i | 0 <= i < |links| :: LinkMatches(links[i], lowerQuery).Ok?
    ensures r.Ok? ==> r.value == Filter(links, LinkTest(lowerQuery))
    ensures r.Err? ==> exists i | 0 <= i < |links| :: LinkMatches(links[i], lowerQuery) == Err(r.error)
  {
    if links == [] then Ok([])
    else
      assert forall i | 1 <= i < |links| :: links[1..][i - 1] == links[i];
      match LinkMatches(links[0], lowerQuery)
      case Err(e) => Err(e)
      case Ok(hit) =>
        match FilterLinks(links[1..], lowerQuery)
        case Err(e) => Err(e)
        case Ok(rest) => if hit then Ok([links[0]] + rest) else Ok(rest)
  }

  /** A hit on the path is a hit whatever the metadata holds. */
  lemma PathHitNeverThrows(link: BundleLink, query: string)
    requires Contains(Lower(link.path), Lower(query))
    ensures LinkMatches(link, Lower(query)) == Ok(true)
  {
  }

  /** Metadata that is an object of strings, the shape the link form
      suggests, never makes the test throw; it is a hit when the path, a
      value or a tag contains the query. */
  lemma StringObjectNeverThrows(link: BundleLink, lowerQuery: string)
    requires link.metadata.JObject?
    requires forall i | 0 <= i < |link.metadata.members| :: link.metadata.members[i].1.JString?
    ensures LinkMatches(link, lowerQuery).Ok?
    ensures LinkHit(link, lowerQuery) <==>
      || Contains(Lower(link.path), lowerQuery)
      || (exists i | 0 <= i < |link.metadata.members| :: StringContains(link.metadata.members[i].1, lowerQuery))
      || SomeContains(link.tags, lowerQuery)
  {
    var values := ObjectValues(link.metadata).value;
    if ValuesSome(values, lowerQuery) == Ok(true) {
      var i :| 0 <= i < |values| && StringContains(values[i], lowerQuery) && forall j | 0 <= j < i :: values[j].JString?;
      assert StringContains(link.metadata.members[i].1, lowerQuery);
    }
  }

  /** Metadata that parsed to `null` throws as soon as the path misses. */
  lemma NullMetadataThrows(link: BundleLink, lowerQuery: string)
    requires link.metadata == JNull && !Contains(Lower(link.path), lowerQuery)
    ensures LinkMatches(link, lowerQuery) == Err(TypeError)
  {
  }

  /** A number among the metadata values throws when the path and the
      string values before it miss. */
  lemma NumberValueThrows(link: BundleLink, lowerQuery: string, n: int)
    requires !Contains(Lower(link.path), lowerQuery)
    requires link.metadata == JArray([JNumber(n)])
    ensures LinkMatches(link, lowerQuery) == Err(TypeError)
  {
  }

  // ---------------------------------------------------------------------------
  // Notes and the combined search.

  /** A markdown file of the vault, with its text as `cachedRead` returns it. */
  datatype MarkdownFile = MarkdownFile(path: string, basename: string, content: string)

  /** The value of calling an `async` function: a promise of its result. */
  datatype Promise<T> = Promise(result: T)

  /** JavaScript truthiness of a promise: every object is truthy, whatever
      it will resolve to. */
  predicate Truthy<T>(p: Promise<T>) {
    true
  }

  /** `noteContainsQuery` (main.js:211-216). */
  function NoteContainsQuery(file: MarkdownFile, query: string): (p: Promise<bool>)
    ensures p.result <==> Contains(Lower(file.content), Lower(query))
  {
    Promise(Contains(Lower(file.content), Lower(query)))
  }

  /** The note test of `performSearch` as written (main.js:163-164): the
      promise returned by `noteContainsQuery` is used as a condition
      without being awaited. */
  predicate NoteMatchesAsWritten(file: MarkdownFile, defaultFolder: string, query: string) {
    StartsWith(file.path, defaultFolder) &&
    (Contains(Lower(file.basename), Lower(query)) || Truthy(NoteContainsQuery(file, query)))
  }

  /** The note test with the promise awaited: the note's name or its text
      contains the query. */
  predicate NoteMatches(file: MarkdownFile, defaultFolder: string, query: string) {
    StartsWith(file.path, defaultFolder) &&
    (Contains(Lower(file.basename), Lower(query)) || NoteContainsQuery(file, query).result)
  }

  /** The corrected note test as the function `filter` is given. */
  function NoteTest(defaultFolder: string, query: string): MarkdownFile -> bool {
    f => NoteMatches(f, defaultFolder, query)
  }

  /** As written, the query plays no part: every note under the folder is kept. */
  lemma {:induction false} NoteFilterAsWrittenIgnoresQuery(files: seq<MarkdownFile>, defaultFolder: string, query: string)
    ensures Filter(files, f => NoteMatchesAsWritten(f, defaultFolder, query))
      == Filter(files, (f: MarkdownFile) => StartsWith(f.path, defaultFolder))
  {
    FilterSameTest(files, f => NoteMatchesAsWritten(f, defaultFolder, query), (f: MarkdownFile) => StartsWith(f.path, defaultFolder));
  }

  /** A note under the folder whose name and text both lack the query is
      kept as written and dropped once the promise is awaited. */
  lemma NoteFilterAsWrittenCounterexample()
    ensures NoteMatchesAsWritten(MarkdownFile("DMS/a.md", "a", ""), "DMS", "zz")
    ensures !NoteMatches(MarkdownFile("DMS/a.md", "a", ""), "DMS", "zz")
  {
    assert "DMS/a.md"[..3] == "DMS";
  }

  /** With the promise awaited the note test is exactly the folder test
      together with a match in the name or the text. */
  lemma NoteMatchesMeaning(file: MarkdownFile, defaultFolder: string, query: string)
    ensures NoteMatches(file, defaultFolder, query) <==>
      StartsWith(file.path, defaultFolder) &&
      (Contains(Lower(file.basename), Lower(query)) || Contains(Lower(file.content), Lower(query)))
  {
  }

  /** One entry of the list `performSearch` resolves to: `[...notes, ...externalLinks]`. */
  datatype SearchHit = NoteHit(file: MarkdownFile) | ExternalHit(link: BundleLink)

  function NoteHits(notes: seq<MarkdownFile>): (r: seq<SearchHit>)
    ensures |r| == |notes| && forall i | 0 <= i < |r| :: r[i] == NoteHit(notes[i])
  {
    seq(|notes|, i requires 0 <= i < |notes| => NoteHit(notes[i]))
  }

  function LinkHits(links: seq<BundleLink>): (r: seq<SearchHit>)
    ensures |r| == |links| && forall i | 0 <= i < |r| :: r[i] == ExternalHit(links[i])
  {
    seq(|links|, i requires 0 <= i < |links| => ExternalHit(links[i]))
  }

  // ---------------------------------------------------------------------------
  // The timestamped name of a new note.

  /** The local date and time `createNewNote` reads from `new Date()`; the
      month is 0-based as `getMonth` returns it. */
  datatype LocalTime = LocalTime(year: int, month: nat, date: nat, hours: nat, minutes: nat, seconds: nat)

  predicate ValidTime(t: LocalTime) {
    t.month < 12 && 1 <= t.date <= 31 && t.hours < 24 && t.minutes < 60 && t.seconds < 60
  }

  /** `n.toString().padStart(2, '0')`. */
  function Pad2(n: nat): string {
    PadStart2(NatToDecimal(n))
  }

  /** The file name of a new note (main.js:118). */
  function NewNoteName(t: LocalTime): string {
    NameOf(IntToString(t.year), Pad2(t.month + 1), Pad2(t.date), Pad2(t.hours), Pad2(t.minutes), Pad2(t.seconds))
  }

  /** The template of the name: date, a dash, time, and the fixed suffix. */
  function NameOf(y: string, mo: string, d: string, h: string, mi: string, s: string): string {
    y + mo + d + "-" + h + mi + s + "-untitled.md"
  }

  /** The path of a new note (main.js:119). */
  function NewNotePath(defaultFolder: string, t: LocalTime): string {
    defaultFolder + "/" + NewNoteName(t)
  }

  /** `n.toString().padStart(2, '0')` has two characters for `n` below 100. */
  lemma Pad2Length(n: nat)
    requires n < 100
    ensures |Pad2(n)| == 2
  {
    if n >= 10 {
      assert |NatToDecimal(n / 10)| == 1;
    }
  }

  /** Where each piece of the name sits when the year has four characters. */
  lemma NameLayout(y: string, mo: string, d: string, h: string, mi: string, s: string)
    requires |y| == 4 && |mo| == 2 && |d| == 2 && |h| == 2 && |mi| == 2 && |s| == 2
    ensures var name := NameOf(y, mo, d, h, mi, s);
      && |name| == 27
      && name[..4] == y
      && name[4..6] == mo
      && name[6..8] == d
      && name[8] == '-'
      && name[9..11] == h
      && name[11..13] == mi
      && name[13..15] == s
      && name[15..] == "-untitled.md"
  {
  }

  /** For a four-digit year the name is `YYYYMMDD-hhmmss-untitled.md`: each
      field can be read back from its two digits, and the month is 1-based. */
  lemma NewNoteNameFields(t: LocalTime)
    requires ValidTime(t) && 1000 <= t.year <= 9999
    ensures var name := NewNoteName(t);
      && |name| == 27
      && name[..4] == NatToDecimal(t.year)
      && AllDigits(name[4..6]) && DecimalValue(name[4..6]) == t.month + 1
      && AllDigits(name[6..8]) && DecimalValue(name[6..8]) == t.date
      && name[8] == '-'
      && AllDigits(name[9..11]) && DecimalValue(name[9..11]) == t.hours
      && AllDigits(name[11..13]) && DecimalValue(name[11..13]) == t.minutes
      && AllDigits(name[13..15]) && DecimalValue(name[13..15]) == t.seconds
      && name[15..] == "-untitled.md"
  {
    DecimalLengthFour(t.year);
    NonNegativeString(t.year);
    TwoDigits(t.month + 1);
    TwoDigits(t.date);
    TwoDigits(t.hours);
    TwoDigits(t.minutes);
    TwoDigits(t.seconds);
    NameLayout(IntToString(t.year), Pad2(t.month + 1), Pad2(t.date), Pad2(t.hours), Pad2(t.minutes), Pad2(t.seconds));
  }

  /** Two moments with four-digit years get the same name only when they
      agree to the second. */
  lemma NewNoteNameInjective(t1: LocalTime, t2: LocalTime)
    requires ValidTime(t1) && 1000 <= t1.year <= 9999
    requires ValidTime(t2) && 1000 <= t2.year <= 9999
    requires NewNoteName(t1) == NewNoteName(t2)
    ensures t1 == t2
  {
    NewNoteNameFields(t1);
    NewNoteNameFields(t2);
    DecimalRoundTrip(t1.year);
    DecimalRoundTrip(t2.year);
  }

  /** The year is not padded: a one-digit year gives a name three characters shorter. */
  lemma NewNoteNameShortYear(t: LocalTime)
    requires ValidTime(t) && 0 <= t.year < 10
    ensures |NewNoteName(t)| == 24
  {
    Pad2Length(t.month + 1);
    Pad2Length(t.date);
    Pad2Length(t.hours);
    Pad2Length(t.minutes);
    Pad2Length(t.seconds);
    NonNegativeString(t.year);
    NameLength(t);
  }

  /** The length of the name is the sum of its pieces' lengths. */
  lemma NameLength(t: LocalTime)
    ensures |NewNoteName(t)| == |IntToString(t.year)| + |Pad2(t.month + 1)| + |Pad2(t.date)| + 1
      + |Pad2(t.hours)| + |Pad2(t.minutes)| + |Pad2(t.seconds)| + 12
  {
  }

  /** The note goes directly into the default folder. */
  lemma NewNotePathFacts(defaultFolder: string, t: LocalTime)
    ensures StartsWith(NewNotePath(defaultFolder, t), defaultFolder + "/")
    ensures EndsWith(NewNotePath(defaultFolder, t), "-untitled.md")
  {
    var p := NewNotePath(defaultFolder, t);
    assert p[..|defaultFolder| + 1] == defaultFolder + "/";
    assert p[|p| - 12..] == "-untitled.md";
  }

  // ---------------------------------------------------------------------------
  // Tags.

  /** The accessor `link => link.tags`, as a function value. */
  function LinkTags(link: BundleLink): seq<string> {
    link.tags
  }

  /** The tags `getAllTags` returns appear once each, and they are exactly
      the tags of the links (main.js:179-183). */
  lemma AllTagsFacts(links: seq<BundleLink>)
    ensures NoDuplicates(Distinct(Flatten(MapSeq(links, LinkTags))))
    ensures forall t :: t in Distinct(Flatten(MapSeq(links, LinkTags))) <==>
      exists i | 0 <= i < |links| :: t in links[i].tags
  {
    forall t ensures t in Flatten(MapSeq(links, LinkTags)) <==> exists i | 0 <= i < |links| :: t in links[i].tags {
      FlattenMembers(MapSeq(links, LinkTags), t);
    }
  }

  /** The object literal both submit handlers build (main.js:136-140 and
      189-193): `None` when `JSON.parse` or `tags.split` throws. */
  function NewLink(path: string, metadata: Option<string>, tags: Option<string>, parse: string -> Option<JsonValue>): (r: Option<BundleLink>)
    ensures r.Some? <==> metadata.Some? && parse(metadata.value).Some? && tags.Some?
    ensures r.Some? ==> r.value == BundleLink(path, parse(metadata.value).value, ParseCommaList(tags.value))
  {
    if metadata.None? then None
    else match parse(metadata.value)
      case None => None
      case Some(value) => if tags.None? then None else Some(BundleLink(path, value, ParseCommaList(tags.value)))
  }

  /** The form of `editExternalLink` starts filled in from an existing link
      (main.js:248-252), so with `JSON.parse` undoing `JSON.stringify` and tags
      that survive `join(', ')`, submitting it unchanged rebuilds that link. */
  lemma PrefilledFormRebuildsLink(link: BundleLink, stringify: JsonValue -> string, parse: string -> Option<JsonValue>)
    requires parse(stringify(link.metadata)) == Some(link.metadata)
    requires |link.tags| >= 1
    requires forall i | 0 <= i < |link.tags| :: ',' !in link.tags[i] && IsTrimmed(link.tags[i])
    ensures NewLink(link.path, Some(stringify(link.metadata)), Some(Join(link.tags, ", ")), parse) == Some(link)
  {
    ParseCommaListJoin(link.tags);
  }

  // ---------------------------------------------------------------------------
  // The plugin.

  class DmsBundlePlugin {
    var externalLinks: seq<BundleLink>
    /** `settings.defaultFolder`, read afresh on every call. */
    var defaultFolder: string
    const vault: Vault

    constructor (vault: Vault, defaultFolder: string)
      ensures externalLinks == []
      ensures this.vault == vault && this.defaultFolder == defaultFolder
    {
      externalLinks := [];
      this.vault := vault;
      this.defaultFolder := defaultFolder;
    }

    /** The default-folder field of the settings tab (main.js:386-389). */
    method SetDefaultFolder(folder: string)
      modifies this`defaultFolder
      ensures defaultFolder == folder
    {
      defaultFolder := folder;
    }

    /** `createNewNote` (main.js:115-132) at the moment `t`: an empty note is
        created at the timestamped path, unless a file is already there, in
        which case `vault.create` rejects and nothing changes. */
    method CreateNewNote(t: LocalTime) returns (r: Result<string, string>)
      modifies vault
      ensures NewNotePath(defaultFolder, t) in old(vault.files) ==> r.Err? && vault.files == old(vault.files)
      ensures NewNotePath(defaultFolder, t) !in old(vault.files) ==>
        r == Ok(NewNotePath(defaultFolder, t)) && vault.files == old(vault.files)[NewNotePath(defaultFolder, t) := ""]
    {
      var filePath := NewNotePath(defaultFolder, t);
      var created := vault.Create(filePath, "");
      if created.Err? {
        r := Err(created.error);
      } else {
        r := Ok(filePath);
      }
    }

    /** The submit handler of `addExternalLink` (main.js:134-149). The form's
        metadata and tags fields are `None` while they are still `undefined`,
        as they are until typed in (main.js:244-271). `parse` stands for
        `JSON.parse`, `None` where it throws; it throws on `undefined` too, and
        `tags.split` throws on an unset tags field. Either throw skips the `push`. */
    method AddExternalLink(path: string, metadata: Option<string>, tags: Option<string>, parse: string -> Option<JsonValue>)
      returns (added: bool)
      modifies this`externalLinks
      ensures added <==> metadata.Some? && parse(metadata.value).Some? && tags.Some?
      ensures !added ==> externalLinks == old(externalLinks)
      ensures added ==>
        externalLinks == old(externalLinks) + [BundleLink(path, parse(metadata.value).value, ParseCommaList(tags.value))]
    {
      var link := NewLink(path, metadata, tags, parse);
      if link.None? {
        added := false;
      } else {
        externalLinks := externalLinks + [link.value];
        added := true;
      }
    }

    /** The submit handler of `editExternalLink` (main.js:185-201), with
        JavaScript's index assignment, done only when the object literal is
        built without a throw. The form starts filled in from the link at
        `index` when there is one (main.js:248-252); its fields are `None`
        while still unset. */
    method EditExternalLink(index: int, path: string, metadata: Option<string>, tags: Option<string>, parse: string -> Option<JsonValue>)
      returns (updated: bool)
      requires index <= |externalLinks|
      modifies this`externalLinks
      ensures updated <==> metadata.Some? && parse(metadata.value).Some? && tags.Some?
      ensures !updated ==> externalLinks == old(externalLinks)
      ensures updated ==>
        externalLinks == AssignAt(old(externalLinks), index, BundleLink(path, parse(metadata.value).value, ParseCommaList(tags.value)))
    {
      var link := NewLink(path, metadata, tags, parse);
      if link.None? {
        updated := false;
      } else {
        externalLinks := AssignAt(externalLinks, index, link.value);
        updated := true;
      }
    }

    /** `deleteExternalLink` (main.js:204-210): `splice(index, 1)`. */
    method DeleteExternalLink(index: int)
      modifies this`externalLinks
      ensures externalLinks == RemoveAt(old(externalLinks), index)
    {
      externalLinks := RemoveAt(externalLinks, index);
    }

    /** `getAllTags` (main.js:179-183). */
    method GetAllTags() returns (tags: seq<string>)
      ensures tags == Distinct(Flatten(MapSeq(externalLinks, LinkTags)))
    {
      tags := [];
      var i := 0;
      while i < |externalLinks|
        invariant 0 <= i <= |externalLinks|
        invariant tags == AddAll([], Flatten(MapSeq(externalLinks[..i], LinkTags)))
      {
        AddAllMappedStep(externalLinks, LinkTags, i);
        tags := AddEach(tags, externalLinks[i].tags);
        i := i + 1;
      }
      assert externalLinks[..i] == externalLinks;
    }

    /** `performSearch` (main.js:161-170) over the vault's markdown files,
        with the note test awaited: the matching notes, then the matching
        links, or the exception a link's metadata raised. */
    function PerformSearch(files: seq<MarkdownFile>, query: string): (r: Result<seq<SearchHit>, string>)
      reads this
      ensures r.Ok? <==> forall i | 0 <= i < |externalLinks| :: LinkMatches(externalLinks[i], Lower(query)).Ok?
      ensures r.Ok? ==>
        r.value == NoteHits(Filter(files, NoteTest(defaultFolder, query))) + LinkHits(Filter(externalLinks, LinkTest(Lower(query))))
    {
      var notes := Filter(files, NoteTest(defaultFolder, query));
      match FilterLinks(externalLinks, Lower(query))
      case Err(e) => Err(e)
      case Ok(links) => Ok(NoteHits(notes) + LinkHits(links))
    }
  }

  /** Where the note hits and the link hits sit in the combined list. */
  lemma HitsLayout(notes: seq<MarkdownFile>, links: seq<BundleLink>)
    ensures var hits := NoteHits(notes) + LinkHits(links);
      && |hits| == |notes| + |links|
      && (forall i | 0 <= i < |notes| :: hits[i] == NoteHit(notes[i]))
      && (forall i | 0 <= i < |links| :: hits[|notes| + i] == ExternalHit(links[i]))
  {
  }

  /** What `[...notes, ...links]` holds. */
  lemma HitsOfParts(notes: seq<MarkdownFile>, links: seq<BundleLink>)
    ensures forall h :: h in NoteHits(notes) + LinkHits(links) <==>
      (h.NoteHit? && h.file in notes) || (h.ExternalHit? && h.link in links)
  {
    var hits := NoteHits(notes) + LinkHits(links);
    forall h | h in hits
      ensures (h.NoteHit? && h.file in notes) || (h.ExternalHit? && h.link in links)
    {
      var k :| 0 <= k < |hits| && hits[k] == h;
      if k < |notes| {
        assert h == NoteHit(notes[k]);
      } else {
        assert h == ExternalHit(links[k - |notes|]);
      }
    }
    forall f | f in notes
      ensures NoteHit(f) in hits
    {
      var k :| 0 <= k < |notes| && notes[k] == f;
      assert hits[k] == NoteHit(f);
    }
    forall l | l in links
      ensures ExternalHit(l) in hits
    {
      var k :| 0 <= k < |links| && links[k] == l;
      assert hits[|notes| + k] == ExternalHit(l);
    }
  }

  /** The hits of the search are exactly the matching notes under the
      folder and the matching links. */
  lemma SearchHitsMatch(plugin: DmsBundlePlugin, files: seq<MarkdownFile>, query: string)
    requires plugin.PerformSearch(files, query).Ok?
    ensures forall h :: h in plugin.PerformSearch(files, query).value <==>
      (h.NoteHit? && h.file in files && NoteMatches(h.file, plugin.defaultFolder, query)) ||
      (h.ExternalHit? && h.link in plugin.externalLinks && LinkHit(h.link, Lower(query)))
  {
    var notes := Filter(files, NoteTest(plugin.defaultFolder, query));
    var links := Filter(plugin.externalLinks, LinkTest(Lower(query)));
    assert plugin.PerformSearch(files, query).value == NoteHits(notes) + LinkHits(links);
    HitsOfParts(notes, links);
    forall x {
      FilterMembers(files, NoteTest(plugin.defaultFolder, query), x);
    }
    forall x {
      FilterMembers(plugin.externalLinks, LinkTest(Lower(query)), x);
    }
  }
}
