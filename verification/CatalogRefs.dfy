/** Printing, parsing and searching provider-qualified scene references (catalog-provider.util.ts). */
module CatalogRefs {
  import opened Basics
  import opened Text

  datatype ProviderKey = STASHDB | FANSDB

  const CATALOG_REF_SEPARATOR := '|'

  function KeyText(key: ProviderKey): (text: string)
    ensures |text| > 0 && Trimmed(text) && CATALOG_REF_SEPARATOR !in text
  {
    match key
    case STASHDB => "STASHDB"
    case FANSDB => "FANSDB"
  }

  function KeyOfText(text: string): Option<ProviderKey> {
    if text == KeyText(STASHDB) then Some(STASHDB)
    else if text == KeyText(FANSDB) then Some(FANSDB)
    else None
  }

  function NormalizeValue(value: Option<string>): Option<string> {
    if value.None? || Trim(value.value) == "" then None else Some(Trim(value.value))
  }

  function BuildCatalogSceneRef(key: ProviderKey, externalId: Option<string>): Option<string> {
    var id := NormalizeValue(externalId);
    if id.None? then None else Some(KeyText(key) + [CATALOG_REF_SEPARATOR] + id.value)
  }

  /** The first position of `c`, as `indexOf` finds it. */
  function IndexOf(s: string, c: char): (i: Option<nat>)
    ensures i.Some? ==> i.value < |s|
  {
    if s == "" then None
    else if s[0] == c then Some(0)
    else
      var rest := IndexOf(s[1..], c);
      if rest.None? then None else Some(rest.value + 1)
  }

  datatype SceneRef = SceneRef(key: ProviderKey, externalId: string)

  function ParseTrimmed(text: string): (ref: Option<SceneRef>)
    ensures ref.Some? ==> CleanId(ref.value.externalId)
  {
    var at := IndexOf(text, CATALOG_REF_SEPARATOR);
    if at.None? || at.value == 0 then None
    else
      var key := KeyOfText(text[..at.value]);
      var externalId := Trim(text[at.value + 1..]);
      if key.None? || externalId == "" then None else Some(SceneRef(key.value, externalId))
  }

  function ParseCatalogSceneRef(value: Option<string>): (ref: Option<SceneRef>)
    ensures ref.Some? ==> CleanId(ref.value.externalId)
  {
    var normalized := NormalizeValue(value);
    if normalized.None? then None else ParseTrimmed(normalized.value)
  }

  /** One `stash_ids` entry; `urlTail` is host name and path, lower-cased, when the endpoint parses as a URL. */
  datatype LinkedEntry = LinkedEntry(endpoint: string, urlTail: Option<string>, externalId: string)

  predicate StartsAt(text: string, i: nat, pattern: string) {
    i <= |text| && pattern <= text[i..]
  }

  predicate Includes(text: string, pattern: string) {
    exists i :: 0 <= i <= |text| && StartsAt(text, i, pattern)
  }

  predicate Mentions(entry: LinkedEntry, pattern: string) {
    || Includes(Normalise(entry.endpoint), pattern)
    || (entry.urlTail.Some? && Includes(entry.urlTail.value, pattern))
  }

  function ResolveCatalogProviderKey(entry: LinkedEntry): Option<ProviderKey> {
    if Trim(entry.endpoint) == "" then None
    else if Mentions(entry, "stashdb.org") || Mentions(entry, "stashdb") then Some(STASHDB)
    else if Mentions(entry, "fansdb.cc") || Mentions(entry, "fansdb") then Some(FANSDB)
    else None
  }

  function RefOf(entry: LinkedEntry): Option<string> {
    var key := ResolveCatalogProviderKey(entry);
    if key.None? then None else BuildCatalogSceneRef(key.value, Some(entry.externalId))
  }

  /** The references of the entries, each once, in the order of first occurrence. */
  function Refs(entries: seq<LinkedEntry>): seq<string> {
    DistinctSome(MapSeq(RefOf, entries))
  }

  method NormalizeCatalogSceneRefs(entries: seq<LinkedEntry>) returns (refs: seq<string>)
    ensures refs == Refs(entries) && RefsOfEntries(entries, refs)
  {
    RefsInWords(entries);
    refs := [];
    for n := 0 to |entries|
      invariant refs == Refs(entries[..n])
    {
      DistinctSnoc(entries, RefOf, n);
      var ref := RefOf(entries[n]);
      if ref.None? {
        continue;
      }
      if ref.value !in refs {
        refs := refs + [ref.value];
      }
    }
    assert entries[..|entries|] == entries;
  }

  /** The id a reference gives for the provider. */
  function IdIn(key: ProviderKey, ref: string): (id: Option<string>)
    ensures id.Some? ==> CleanId(id.value)
  {
    var parsed := ParseCatalogSceneRef(Some(ref));
    if parsed.Some? && parsed.value.key == key then Some(parsed.value.externalId) else None
  }

  function IdFinder(key: ProviderKey): string -> Option<string> {
    ref => IdIn(key, ref)
  }

  /** The external id of the first reference of the provider. */
  function FindCatalogExternalIdForProvider(refs: seq<string>, key: ProviderKey): Option<string> {
    FirstSome(MapSeq(IdFinder(key), refs))
  }

  method FindFirstExternalId(refs: seq<string>, key: ProviderKey) returns (id: Option<string>)
    ensures id == FindCatalogExternalIdForProvider(refs, key)
  {
    ghost var ids := MapSeq(IdFinder(key), refs);
    for n := 0 to |refs|
      invariant FirstSome(ids) == FirstSome(ids[n..])
    {
      assert ids[n..][1..] == ids[n + 1..];
      var found := IdIn(key, refs[n]);
      if found.Some? {
        return found;
      }
    }
    return None;
  }

  predicate HasCatalogSceneRef(refs: seq<string>, key: ProviderKey, externalId: string) {
    Trim(externalId) != "" && Some(Trim(externalId)) in MapSeq(IdFinder(key), refs)
  }

  lemma {:induction false} IndexOfFirst(before: string, c: char, after: string)
    requires c !in before
    ensures IndexOf(before + [c] + after, c) == Some(|before|)
  {
    var s := before + [c] + after;
    if before != "" {
      IndexOfFirst(before[1..], c, after);
      assert s[1..] == before[1..] + [c] + after;
      assert s[0] == before[0] && before[0] in before;
    }
  }

  lemma KeyTextParses(key: ProviderKey)
    ensures KeyOfText(KeyText(key)) == Some(key)
  {
    assert |KeyText(STASHDB)| == 7 && |KeyText(FANSDB)| == 6;
  }

  lemma PrintedParses(key: ProviderKey, text: string, id: string)
    requires text == KeyText(key) && CleanId(id)
    ensures ParseTrimmed(text + [CATALOG_REF_SEPARATOR] + id) == Some(SceneRef(key, id))
  {
    var ref := text + [CATALOG_REF_SEPARATOR] + id;
    IndexOfFirst(text, CATALOG_REF_SEPARATOR, id);
    KeyTextParses(key);
    assert ref[..|text|] == text && ref[|text| + 1..] == id;
  }

  lemma PrintedTrimmed(text: string, id: string)
    requires text != "" && Trimmed(text) && CleanId(id)
    ensures NormalizeValue(Some(text + [CATALOG_REF_SEPARATOR] + id)) == Some(text + [CATALOG_REF_SEPARATOR] + id)
  {
    var ref := text + [CATALOG_REF_SEPARATOR] + id;
    assert ref[0] == text[0] && ref[|ref| - 1] == id[|id| - 1];
    assert Trimmed(ref);
  }

  /** Parsing a built reference gives back the provider and the trimmed id, separators in the id included. */
  lemma BuiltRefParses(key: ProviderKey, externalId: string)
    requires Trim(externalId) != ""
    ensures ParseCatalogSceneRef(BuildCatalogSceneRef(key, Some(externalId))) == Some(SceneRef(key, Trim(externalId)))
  {
    PrintedTrimmed(KeyText(key), Trim(externalId));
    PrintedParses(key, KeyText(key), Trim(externalId));
  }

  /** The id an entry carries for the provider, up to surrounding white space. */
  function LinkedId(key: ProviderKey, entry: LinkedEntry): Option<string> {
    if ResolveCatalogProviderKey(entry) == Some(key) && Trim(entry.externalId) != "" then Some(Trim(entry.externalId))
    else None
  }

  function LinkFinder(key: ProviderKey): LinkedEntry -> Option<string> {
    entry => LinkedId(key, entry)
  }

  function IdInRef(key: ProviderKey, ref: Option<string>): Option<string> {
    if ref.Some? then IdIn(key, ref.value) else None
  }

  /** Through its reference an entry gives the provider the id it carries. */
  lemma RefGivesLinkedId(key: ProviderKey, entry: LinkedEntry)
    ensures IdInRef(key, RefOf(entry)) == LinkedId(key, entry)
  {
    if RefOf(entry).Some? {
      BuiltRefParses(ResolveCatalogProviderKey(entry).value, entry.externalId);
    }
  }

  function ThroughRef(key: ProviderKey): Option<string> -> Option<string> {
    ref => IdInRef(key, ref)
  }

  lemma IdsThroughRefs(entries: seq<LinkedEntry>, key: ProviderKey)
    ensures MapSeq(ThroughRef(key), MapSeq(RefOf, entries)) == MapSeq(LinkFinder(key), entries)
  {
    forall i | 0 <= i < |entries| ensures ThroughRef(key)(RefOf(entries[i])) == LinkFinder(key)(entries[i]) {
      RefGivesLinkedId(key, entries[i]);
    }
  }

  /** The text has the word somewhere in it. */
  ghost predicate Contains(text: string, word: string) {
    exists before, after :: text == before + word + after
  }

  /** The endpoint, trimmed and lower-cased, or the host name and path of its URL, has the word in it. */
  ghost predicate Names(entry: LinkedEntry, word: string) {
    && Trim(entry.endpoint) != ""
    && (Contains(Lower(Trim(entry.endpoint)), word) || (entry.urlTail.Some? && Contains(entry.urlTail.value, word)))
  }

  /** The entry carries the id for the provider: it names it, and StashDB comes before FansDB. */
  ghost predicate Carries(entry: LinkedEntry, key: ProviderKey, id: string) {
    && id != "" && Trim(entry.externalId) == id
    && match key
       case STASHDB => Names(entry, "stashdb")
       case FANSDB => Names(entry, "fansdb") && !Names(entry, "stashdb")
  }

  /** The text of the reference to an id of the provider. */
  ghost predicate RefersTo(ref: string, key: ProviderKey, id: string) {
    match key
    case STASHDB => ref == "STASHDB|" + id
    case FANSDB => ref == "FANSDB|" + id
  }

  lemma IncludesContains(text: string, word: string)
    ensures Includes(text, word) <==> Contains(text, word)
  {
    if i :| 0 <= i <= |text| && StartsAt(text, i, word) {
      assert text == text[..i] + word + text[i + |word|..];
    }
    if before, after :| text == before + word + after {
      assert text[|before|..] == word + after;
      assert StartsAt(text, |before|, word);
    }
  }

  lemma LongerIncludes(text: string, word: string, longer: string)
    requires word <= longer && Includes(text, longer)
    ensures Includes(text, word)
  {
    var i :| 0 <= i <= |text| && StartsAt(text, i, longer);
    assert StartsAt(text, i, word);
  }

  lemma MentionsNames(entry: LinkedEntry, word: string, longer: string)
    requires word <= longer
    ensures Trim(entry.endpoint) != "" ==> (Mentions(entry, longer) || Mentions(entry, word) <==> Names(entry, word))
  {
    var endpoint := Normalise(entry.endpoint);
    IncludesContains(endpoint, word);
    if Includes(endpoint, longer) {
      LongerIncludes(endpoint, word, longer);
    }
    if entry.urlTail.Some? {
      IncludesContains(entry.urlTail.value, word);
      if Includes(entry.urlTail.value, longer) {
        LongerIncludes(entry.urlTail.value, word, longer);
      }
    }
  }

  lemma KeyInWords(entry: LinkedEntry)
    ensures ResolveCatalogProviderKey(entry) == Some(STASHDB) <==> Names(entry, "stashdb")
    ensures ResolveCatalogProviderKey(entry) == Some(FANSDB) <==> Names(entry, "fansdb") && !Names(entry, "stashdb")
  {
    MentionsNames(entry, "stashdb", "stashdb.org");
    MentionsNames(entry, "fansdb", "fansdb.cc");
  }

  lemma LinkedInWords(entry: LinkedEntry, key: ProviderKey, id: string)
    ensures LinkedId(key, entry) == Some(id) <==> Carries(entry, key, id)
  {
    KeyInWords(entry);
  }

  /** An entry that names StashDB and has an id gives the reference "STASHDB|" and its trimmed id, one that names FansDB
      alone gives "FANSDB|" and the id, and no other entry gives one. */
  lemma RefInWords(entry: LinkedEntry, ref: string)
    ensures RefOf(entry) == Some(ref) <==> GivesRef(entry, ref)
  {
    KeyInWords(entry);
    var id := Trim(entry.externalId);
    assert "STASHDB" + [CATALOG_REF_SEPARATOR] + id == "STASHDB|" + id;
    assert "FANSDB" + [CATALOG_REF_SEPARATOR] + id == "FANSDB|" + id;
    if RefOf(entry) == Some(ref) {
      var key := ResolveCatalogProviderKey(entry).value;
      assert Carries(entry, key, id) && RefersTo(ref, key, id);
    }
  }

  /** On normalised references the search returns the id of the first entry that carries one for the provider. */
  lemma FindReturnsTheFirst(entries: seq<LinkedEntry>, key: ProviderKey)
    ensures var found := FindCatalogExternalIdForProvider(Refs(entries), key);
            && (found.None? <==> forall i, id :: 0 <= i < |entries| ==> !Carries(entries[i], key, id))
            && (found.Some? ==> exists i :: FirstCarrier(entries, key, i, found.value))
  {
    FirstOfDistinct(MapSeq(RefOf, entries), IdFinder(key), ThroughRef(key));
    IdsThroughRefs(entries, key);
    FirstLinked(entries, key);
  }

  lemma FirstLinked(entries: seq<LinkedEntry>, key: ProviderKey)
    ensures var found := FirstSome(MapSeq(LinkFinder(key), entries));
            && (found.None? <==> forall i, id :: 0 <= i < |entries| ==> !Carries(entries[i], key, id))
            && (found.Some? ==> exists i :: FirstCarrier(entries, key, i, found.value))
  {
    var ids := MapSeq(LinkFinder(key), entries);
    if FirstSome(ids).Some? {
      var i := FirstSomeAt(ids);
      LinkedInWords(entries[i], key, FirstSome(ids).value);
      forall j, other | 0 <= j < i ensures !Carries(entries[j], key, other) {
        LinkedInWords(entries[j], key, other);
      }
      assert FirstCarrier(entries, key, i, FirstSome(ids).value);
    } else {
      forall i, id | 0 <= i < |entries| ensures !Carries(entries[i], key, id) {
        LinkedInWords(entries[i], key, id);
      }
    }
  }

  /** Entry `i` carries the id for the provider and no entry before it carries any. */
  ghost predicate FirstCarrier(entries: seq<LinkedEntry>, key: ProviderKey, i: nat, id: string) {
    i < |entries| && Carries(entries[i], key, id) && forall j, other :: 0 <= j < i ==> !Carries(entries[j], key, other)
  }

  lemma {:induction false} FirstSomeAt<T>(s: seq<Option<T>>) returns (i: nat)
    requires FirstSome(s).Some?
    ensures i < |s| && s[i] == FirstSome(s) && forall j :: 0 <= j < i ==> s[j].None?
  {
    if s[0].Some? {
      i := 0;
    } else {
      i := FirstSomeAt(s[1..]);
      i := i + 1;
    }
  }

  /** On normalised references the test finds exactly the ids some entry carries for the provider. */
  lemma HasRefExactly(entries: seq<LinkedEntry>, key: ProviderKey, externalId: string)
    ensures HasCatalogSceneRef(Refs(entries), key, externalId)
            <==> exists i :: 0 <= i < |entries| && Carries(entries[i], key, Trim(externalId))
  {
    MemberOfDistinct(MapSeq(RefOf, entries), IdFinder(key), ThroughRef(key), Trim(externalId));
    IdsThroughRefs(entries, key);
    var ids := MapSeq(LinkFinder(key), entries);
    forall i | 0 <= i < |entries| ensures ids[i] == Some(Trim(externalId)) <==> Carries(entries[i], key, Trim(externalId)) {
      LinkedInWords(entries[i], key, Trim(externalId));
    }
  }

  /** The entry's reference in words. */
  ghost predicate GivesRef(entry: LinkedEntry, ref: string) {
    exists key, id :: Carries(entry, key, id) && RefersTo(ref, key, id)
  }

  ghost predicate SomeGives(entries: seq<LinkedEntry>, ref: string) {
    exists i :: 0 <= i < |entries| && GivesRef(entries[i], ref)
  }

  /** Some entry gives the one reference, and neither it nor any before it the other. */
  ghost predicate GivenFirst(entries: seq<LinkedEntry>, ref: string, other: string) {
    exists i :: 0 <= i < |entries| && GivesRef(entries[i], ref) && !SomeGives(entries[..i + 1], other)
  }

  /** What normalising makes of the entries: the reference of each that has one, once, in order of first occurrence. */
  ghost predicate RefsOfEntries(entries: seq<LinkedEntry>, refs: seq<string>) {
    && NoDuplicates(refs)
    && (forall ref :: ref in refs <==> SomeGives(entries, ref))
    && (forall a, b :: 0 <= a < b < |refs| ==> GivenFirst(entries, refs[a], refs[b]))
  }

  lemma RefsInWords(entries: seq<LinkedEntry>)
    ensures RefsOfEntries(entries, Refs(entries))
  {
    DistinctMembers(MapSeq(RefOf, entries));
    forall ref ensures ref in Refs(entries) <==> SomeGives(entries, ref) {
      RefGiven(entries, ref);
    }
    forall a, b | 0 <= a < b < |Refs(entries)| ensures GivenFirst(entries, Refs(entries)[a], Refs(entries)[b]) {
      RefsInOrder(entries, a, b);
    }
  }

  lemma RefGiven(entries: seq<LinkedEntry>, ref: string)
    ensures Some(ref) in MapSeq(RefOf, entries) <==> SomeGives(entries, ref)
  {
    var all := MapSeq(RefOf, entries);
    if i :| 0 <= i < |all| && all[i] == Some(ref) {
      RefInWords(entries[i], ref);
    }
    if i :| 0 <= i < |entries| && GivesRef(entries[i], ref) {
      RefInWords(entries[i], ref);
      assert all[i] == Some(ref);
    }
  }

  lemma RefsInOrder(entries: seq<LinkedEntry>, a: nat, b: nat)
    requires a < b < |Refs(entries)|
    ensures GivenFirst(entries, Refs(entries)[a], Refs(entries)[b])
  {
    var i := DistinctInOrder(MapSeq(RefOf, entries), a, b);
    RefInWords(entries[i], Refs(entries)[a]);
    var prefix := entries[..i + 1];
    forall j | 0 <= j < |prefix| ensures !GivesRef(prefix[j], Refs(entries)[b]) {
      RefInWords(entries[j], Refs(entries)[b]);
    }
  }

  /** All references of the provider give the same id. */
  predicate OneIdFor(refs: seq<string>, key: ProviderKey) {
    var ids := MapSeq(IdFinder(key), refs);
    forall i, j :: 0 <= i < |ids| && 0 <= j < |ids| && ids[i].Some? && ids[j].Some? ==> ids[i] == ids[j]
  }

  /** Where a scene carries one id for the provider, testing for an id and finding the first one agree. */
  lemma OneIdFoundOrTested(refs: seq<string>, key: ProviderKey, id: string)
    requires CleanId(id) && OneIdFor(refs, key)
    ensures HasCatalogSceneRef(refs, key, id) <==> FindCatalogExternalIdForProvider(refs, key) == Some(id)
  {
    OneSome(MapSeq(IdFinder(key), refs), id);
  }

  lemma OneSome<T>(ids: seq<Option<T>>, id: T)
    requires forall i, j :: 0 <= i < |ids| && 0 <= j < |ids| && ids[i].Some? && ids[j].Some? ==> ids[i] == ids[j]
    ensures Some(id) in ids <==> FirstSome(ids) == Some(id)
  {
    if Some(id) in ids {
      var i :| 0 <= i < |ids| && ids[i] == Some(id);
      assert FirstSome(ids).Some?;
      var j :| 0 <= j < |ids| && ids[j] == FirstSome(ids);
    }
  }

  lemma FoundIdIsClean(refs: seq<string>, key: ProviderKey)
    ensures var found := FindCatalogExternalIdForProvider(refs, key); found.Some? ==> CleanId(found.value)
  {
    var ids := MapSeq(IdFinder(key), refs);
    if FirstSome(ids).Some? {
      var i :| 0 <= i < |ids| && ids[i] == FirstSome(ids);
      assert ids[i] == IdIn(key, refs[i]);
    }
  }
}
