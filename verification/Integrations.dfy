/** Saving, testing and resetting integrations under the catalog provider lock
    (integrations.service.ts, catalog-provider.util.ts). */
module Integrations {
  import opened Basics
  import opened Text

  datatype IntegrationType = STASHDB | FANSDB | STASH | WHISPARR

  datatype Status = NotConfigured | Configured | InError

  /** A stored row; `selected` is the selection mark in its `config`. */
  datatype Row = Row(
    enabled: bool,
    name: Option<string>,
    baseUrl: Option<string>,
    apiKey: Option<string>,
    selected: bool,
    status: Status,
    lastHealthyAt: Option<int>,
    lastErrorAt: Option<int>,
    lastErrorMessage: Option<string>)

  type Rows = map<IntegrationType, Row>

  datatype Update = Update(enabled: Option<bool>, name: Option<string>, baseUrl: Option<string>, apiKey: Option<string>)

  /** How a connection test goes: it may also succeed and then fail to record the recovery. */
  datatype Test = Succeeds | Fails(message: string) | RecoveryThrows(message: string)

  const BLANK_ROW := Row(true, None, None, None, false, NotConfigured, None, None, None)
  const INTEGRATION_TYPES := [STASHDB, FANSDB, STASH, WHISPARR]
  const CATALOG_PROVIDER_KEYS := [STASHDB, FANSDB]

  ghost function PositionOf(integration: IntegrationType): (k: nat)
    ensures k < |INTEGRATION_TYPES| && INTEGRATION_TYPES[k] == integration
  {
    match integration
    case STASHDB => 0
    case FANSDB => 1
    case STASH => 2
    case WHISPARR => 3
  }

  predicate IsCatalog(integration: IntegrationType) {
    integration in CATALOG_PROVIDER_KEYS
  }

  function MergeNormalizedInput(existing: Option<string>, next: Option<string>): Option<string> {
    if next.None? || Trim(next.value) == "" then existing else Some(Trim(next.value))
  }

  function ExistingOrBlank(existing: Option<Row>): Row {
    if existing.Some? then existing.value else BLANK_ROW
  }

  /** The row with the connection values a save or a test would persist. */
  function ResolvePersistedValues(integration: IntegrationType, dto: Update, existing: Option<Row>): Row {
    var row := ExistingOrBlank(existing);
    row.(enabled := if IsCatalog(integration) then true else if dto.enabled.Some? then dto.enabled.value else row.enabled,
         name := MergeNormalizedInput(row.name, dto.name),
         baseUrl := MergeNormalizedInput(row.baseUrl, dto.baseUrl),
         apiKey := MergeNormalizedInput(row.apiKey, dto.apiKey))
  }

  predicate IsSet(value: Option<string>) {
    value.Some? && value.value != ""
  }

  predicate HasSavedConfig(integration: IntegrationType, values: Row) {
    IsSet(values.baseUrl) || (!IsCatalog(integration) && (IsSet(values.apiKey) || IsSet(values.name)))
  }

  predicate ConnectionDetailsChanged(existing: Option<Row>, values: Row) {
    ExistingOrBlank(existing).baseUrl != values.baseUrl || ExistingOrBlank(existing).apiKey != values.apiKey
  }

  /** The row a save stores. */
  function SavedRow(integration: IntegrationType, dto: Update, existing: Option<Row>): Row {
    var values := ResolvePersistedValues(integration, dto, existing);
    var configured := HasSavedConfig(integration, values);
    var marked := values.(selected := values.selected || (IsCatalog(integration) && configured));
    if !configured || existing.None? || ConnectionDetailsChanged(existing, values)
    then marked.(status := NotConfigured, lastHealthyAt := None, lastErrorAt := None, lastErrorMessage := None)
    else marked
  }

  function HealthyRow(values: Row, now: int): Row {
    values.(status := Configured, lastHealthyAt := Some(now), lastErrorAt := None, lastErrorMessage := None)
  }

  function ErrorRow(values: Row, existing: Option<Row>, message: string, now: int): Row {
    values.(
      status := InError,
      lastHealthyAt := if ConnectionDetailsChanged(existing, values) then None else ExistingOrBlank(existing).lastHealthyAt,
      lastErrorAt := Some(now),
      lastErrorMessage := Some(message))
  }

  /** The values a test persists: a catalog provider is marked even without a URL. */
  function MarkedValues(integration: IntegrationType, dto: Update, existing: Option<Row>): Row {
    var values := ResolvePersistedValues(integration, dto, existing);
    values.(selected := values.selected || IsCatalog(integration))
  }

  /** The row a test leaves. */
  function TestedRow(integration: IntegrationType, dto: Update, existing: Option<Row>, test: Test, now: int): Row {
    var values := MarkedValues(integration, dto, existing);
    if !IsSet(values.baseUrl) then ErrorRow(values, existing, BASE_URL_REQUIRED, now)
    else if test.Succeeds? then HealthyRow(values, now)
    else ErrorRow(values, existing, test.message, now)
  }

  const BASE_URL_REQUIRED := "Base URL is required to test this integration."

  /** Storing a row; one with a catalog base URL blanks the other provider's row. */
  function Stored(rows: Rows, integration: IntegrationType, row: Row): Rows {
    map t | t in rows.Keys + {integration} ::
      if t == integration then row
      else if IsCatalog(integration) && IsCatalog(t) && IsSet(row.baseUrl) then BLANK_ROW
      else rows[t]
  }

  lemma StoredTwice(rows: Rows, integration: IntegrationType, first: Row, second: Row)
    requires IsSet(first.baseUrl) ==> IsSet(second.baseUrl)
    ensures Stored(Stored(rows, integration, first), integration, second) == Stored(rows, integration, second)
  {
  }

  predicate HasUrl(rows: Rows, integration: IntegrationType) {
    integration in rows && rows[integration].baseUrl.Some? && Trim(rows[integration].baseUrl.value) != ""
  }

  predicate Ready(rows: Rows, integration: IntegrationType) {
    && HasUrl(rows, integration)
    && rows[integration].enabled && rows[integration].status.Configured? && rows[integration].lastHealthyAt.Some?
  }

  function PickCatalogProviderType(rows: Rows, candidates: seq<IntegrationType>): (picked: Option<IntegrationType>)
    ensures picked.Some? ==> picked.value in candidates
    ensures candidates != [] ==> picked.Some?
  {
    var enabled := Filter((t: IntegrationType) => t in rows && rows[t].enabled, candidates);
    var ready := Filter((t: IntegrationType) => Ready(rows, t), candidates);
    if candidates == [] then None
    else if |candidates| == 1 then Some(candidates[0])
    else if |enabled| == 1 then Some(enabled[0])
    else if |ready| == 1 then Some(ready[0])
    else Some(candidates[0])
  }

  /** The provider this instance is set up for: by its mark, else by its base URL. */
  function InstanceCatalogProvider(rows: Rows): Option<IntegrationType> {
    var marked := PickCatalogProviderType(rows,
      Filter((t: IntegrationType) => t in rows && rows[t].selected, CATALOG_PROVIDER_KEYS));
    if marked.Some? then marked
    else PickCatalogProviderType(rows, Filter((t: IntegrationType) => HasUrl(rows, t), CATALOG_PROVIDER_KEYS))
  }

  function ConfiguredCatalogProvider(rows: Rows): Option<IntegrationType> {
    var configured := Filter((t: IntegrationType) => Ready(rows, t), CATALOG_PROVIDER_KEYS);
    if configured == [] then None else Some(configured[0])
  }

  /** A catalog provider other than the instance's is refused; so is a save that leaves the instance's without a URL. */
  predicate Refused(rows: Rows, integration: IntegrationType, clears: bool) {
    var instance := InstanceCatalogProvider(rows);
    IsCatalog(integration) && instance.Some? && (instance.value != integration || clears)
  }

  datatype Op =
    | Save(integration: IntegrationType, dto: Update)
    | TestOf(integration: IntegrationType, dto: Update, test: Test, now: int)
    | Reset(integration: IntegrationType)
    | ResetAll

  /** What each operation makes of the stored rows. */
  function Next(rows: Rows, op: Op): Rows {
    match op
    case Save(t, dto) =>
      var row := SavedRow(t, dto, Lookup(rows, t));
      if Refused(rows, t, !HasSavedConfig(t, row)) then rows else Stored(rows, t, row)
    case TestOf(t, dto, test, now) =>
      if Refused(rows, t, false) then rows else Stored(rows, t, TestedRow(t, dto, Lookup(rows, t), test, now))
    case Reset(t) =>
      if IsCatalog(t) then rows[STASHDB := BLANK_ROW][FANSDB := BLANK_ROW] else rows[t := BLANK_ROW]
    case ResetAll =>
      map t | t in INTEGRATION_TYPES :: BLANK_ROW
  }

  /** A text field after a save or a test: what was typed in, trimmed, or what was there before. */
  predicate Entered(typed: Option<string>, before: Option<string>, after: Option<string>) {
    if typed.Some? && Trim(typed.value) != "" then after == Some(Trim(typed.value)) else after == before
  }

  predicate NoHealth(row: Row) {
    row.lastHealthyAt == None && row.lastErrorAt == None && row.lastErrorMessage == None
  }

  /** The values of a row are those entered over the row before, and a catalog provider is always enabled. */
  predicate ValuesEntered(rows: Rows, integration: IntegrationType, dto: Update, after: Row) {
    var before := if integration in rows then rows[integration] else BLANK_ROW;
    && Entered(dto.baseUrl, before.baseUrl, after.baseUrl)
    && Entered(dto.apiKey, before.apiKey, after.apiKey)
    && Entered(dto.name, before.name, after.name)
    && after.enabled == (integration == STASHDB || integration == FANSDB || (if dto.enabled.Some? then dto.enabled.value else before.enabled))
  }

  /** URL and key are what they were. */
  predicate SameConnection(rows: Rows, integration: IntegrationType, after: Row) {
    var before := if integration in rows then rows[integration] else BLANK_ROW;
    after.baseUrl == before.baseUrl && after.apiKey == before.apiKey
  }

  /** What an allowed test leaves of its provider: it is configured and healthy exactly when it has a URL and the test
      succeeds, and otherwise in error, still healthy as of before only over the same connection. */
  predicate TestLeaves(rows: Rows, integration: IntegrationType, dto: Update, test: Test, now: int, after: Row) {
    var url := after.baseUrl.Some? && after.baseUrl.value != "";
    && ValuesEntered(rows, integration, dto, after)
    && after.selected == (integration == STASHDB || integration == FANSDB || (integration in rows && rows[integration].selected))
    && if url && test.Succeeds? then
         after.status == Configured && after.lastHealthyAt == Some(now) && after.lastErrorAt == None && after.lastErrorMessage == None
       else
         && after.status == InError && after.lastErrorAt == Some(now)
         && after.lastErrorMessage == Some(if url then test.message else "Base URL is required to test this integration.")
         && after.lastHealthyAt == if integration in rows && SameConnection(rows, integration, after) then rows[integration].lastHealthyAt else None
  }

  /** A save leaves something to connect with: a URL, or for a service that is no catalog a key or a name. */
  predicate SavesSomething(integration: IntegrationType, after: Row) {
    || (after.baseUrl.Some? && after.baseUrl.value != "")
    || (integration != STASHDB && integration != FANSDB
        && ((after.apiKey.Some? && after.apiKey.value != "") || (after.name.Some? && after.name.value != "")))
  }

  /** What an allowed save leaves of its integration: the status and health of before exactly when the row was there, has
      something to connect with and keeps its connection. */
  predicate SaveLeaves(rows: Rows, integration: IntegrationType, dto: Update, after: Row) {
    && ValuesEntered(rows, integration, dto, after)
    && after.selected == ((integration in rows && rows[integration].selected)
                          || ((integration == STASHDB || integration == FANSDB) && SavesSomething(integration, after)))
    && if integration in rows && SavesSomething(integration, after) && SameConnection(rows, integration, after) then
         && after.status == rows[integration].status && after.lastHealthyAt == rows[integration].lastHealthyAt
         && after.lastErrorAt == rows[integration].lastErrorAt && after.lastErrorMessage == rows[integration].lastErrorMessage
       else after.status == NotConfigured && NoHealth(after)
  }

  /** The rows beside the one stored: the other catalog provider's is reset when a catalog provider has a URL. */
  predicate OthersAfter(rows: Rows, integration: IntegrationType, after: Rows) {
    && integration in after && after.Keys == rows.Keys + {integration}
    && forall other :: other in rows && other != integration ==>
         if {integration, other} == {STASHDB, FANSDB} && after[integration].baseUrl.Some? && after[integration].baseUrl.value != ""
         then IsReset(after[other]) else after[other] == rows[other]
  }

  predicate IsReset(row: Row) {
    && row.enabled && !row.selected && row.status == NotConfigured && NoHealth(row)
    && row.name == None && row.baseUrl == None && row.apiKey == None
  }

  lemma StoredOthers(rows: Rows, integration: IntegrationType, row: Row)
    ensures OthersAfter(rows, integration, Stored(rows, integration, row)) && Stored(rows, integration, row)[integration] == row
  {
  }

  lemma TestInWords(rows: Rows, integration: IntegrationType, dto: Update, test: Test, now: int)
    requires !Refused(rows, integration, false)
    ensures var next := Next(rows, TestOf(integration, dto, test, now));
            OthersAfter(rows, integration, next) && TestLeaves(rows, integration, dto, test, now, next[integration])
  {
    StoredOthers(rows, integration, TestedRow(integration, dto, Lookup(rows, integration), test, now));
    TestedRowInWords(rows, integration, dto, test, now);
  }

  lemma TestedRowInWords(rows: Rows, integration: IntegrationType, dto: Update, test: Test, now: int)
    ensures TestLeaves(rows, integration, dto, test, now, TestedRow(integration, dto, Lookup(rows, integration), test, now))
  {
  }

  lemma SaveInWords(rows: Rows, integration: IntegrationType, dto: Update)
    requires !Refused(rows, integration, !HasSavedConfig(integration, SavedRow(integration, dto, Lookup(rows, integration))))
    ensures var next := Next(rows, Save(integration, dto));
            OthersAfter(rows, integration, next) && SaveLeaves(rows, integration, dto, next[integration])
  {
    StoredOthers(rows, integration, SavedRow(integration, dto, Lookup(rows, integration)));
  }

  /** The provider has a URL, is enabled and has passed its last test. */
  predicate Works(rows: Rows, integration: IntegrationType) {
    && integration in rows && rows[integration].baseUrl.Some? && Trim(rows[integration].baseUrl.value) != ""
    && rows[integration].enabled && rows[integration].status == Configured && rows[integration].lastHealthyAt.Some?
  }

  /** The configured provider is the first one that works. */
  lemma ConfiguredInWords(rows: Rows)
    ensures ConfiguredCatalogProvider(rows)
            == if Works(rows, STASHDB) then Some(STASHDB) else if Works(rows, FANSDB) then Some(FANSDB) else None
  {
    FilterKeys((t: IntegrationType) => Ready(rows, t));
  }

  /** Of two candidates the one that is enabled alone is picked, else the one that works alone, else the first. */
  lemma PickInWords(rows: Rows)
    ensures var first, second := STASHDB in rows && rows[STASHDB].enabled, FANSDB in rows && rows[FANSDB].enabled;
            PickCatalogProviderType(rows, CATALOG_PROVIDER_KEYS)
            == Some(if first && !second then STASHDB
                    else if second && !first then FANSDB
                    else if Works(rows, STASHDB) && !Works(rows, FANSDB) then STASHDB
                    else if Works(rows, FANSDB) && !Works(rows, STASHDB) then FANSDB
                    else STASHDB)
  {
    FilterKeys((t: IntegrationType) => t in rows && rows[t].enabled);
    FilterKeys((t: IntegrationType) => Ready(rows, t));
  }

  /** A catalog provider whose test succeeds over a URL is the configured one. */
  lemma TestConfigures(rows: Rows, integration: IntegrationType, dto: Update, now: int)
    requires IsCatalog(integration) && !Refused(rows, integration, false)
    requires GivesUrl(dto) || HasUrl(rows, integration)
    ensures ConfiguredCatalogProvider(Next(rows, TestOf(integration, dto, Succeeds, now))) == Some(integration)
  {
    TestInWords(rows, integration, dto, Succeeds, now);
    FilterKeys((t: IntegrationType) => Ready(Next(rows, TestOf(integration, dto, Succeeds, now)), t));
  }

  class IntegrationsService {
    var rows: Rows

    constructor ()
      ensures rows == map[]
    {
      rows := map[];
    }

    method ResetOthers(integration: IntegrationType)
      requires IsCatalog(integration)
      modifies this
      ensures rows == map t | t in old(rows) :: if IsCatalog(t) && t != integration then BLANK_ROW else old(rows)[t]
    {
      for i := 0 to |CATALOG_PROVIDER_KEYS|
        invariant rows == map t | t in old(rows) ::
                    if t in CATALOG_PROVIDER_KEYS[..i] && t != integration then BLANK_ROW else old(rows)[t]
      {
        var other := CATALOG_PROVIDER_KEYS[i];
        if other != integration && other in rows {
          rows := rows[other := BLANK_ROW];
        }
      }
    }

    /** The transaction that stores a row. */
    method Persist(integration: IntegrationType, row: Row)
      modifies this
      ensures rows == Stored(old(rows), integration, row)
    {
      if IsCatalog(integration) && HasSavedConfig(integration, row) {
        ResetOthers(integration);
      }
      rows := rows[integration := row];
    }

    method Upsert(integration: IntegrationType, dto: Update) returns (saved: bool)
      modifies this
      ensures rows == Next(old(rows), Save(integration, dto))
      ensures var row := SavedRow(integration, dto, Lookup(old(rows), integration));
              saved <==> !Refused(old(rows), integration, !HasSavedConfig(integration, row))
      ensures saved ==> OthersAfter(old(rows), integration, rows) && SaveLeaves(old(rows), integration, dto, rows[integration])
    {
      if !Refused(rows, integration, !HasSavedConfig(integration, SavedRow(integration, dto, Lookup(rows, integration)))) {
        SaveInWords(rows, integration, dto);
      }
      var existing := Lookup(rows, integration);
      var row := ResolvePersistedValues(integration, dto, existing);
      var configured := HasSavedConfig(integration, row);
      if IsCatalog(integration) {
        var configuredType := InstanceCatalogProvider(rows);
        if configuredType.Some? && (configuredType.value != integration || !configured) {
          return false;
        }
      }
      if !configured || existing.None? || ConnectionDetailsChanged(existing, row) {
        row := row.(status := NotConfigured, lastHealthyAt := None, lastErrorAt := None, lastErrorMessage := None);
      }
      if IsCatalog(integration) && configured {
        row := row.(selected := true);
      }
      Persist(integration, row);
      return true;
    }

    /** The failure handler of a test persists over whatever the success path had persisted. */
    method TestIntegration(integration: IntegrationType, dto: Update, test: Test, now: int) returns (tested: bool)
      modifies this
      ensures rows == Next(old(rows), TestOf(integration, dto, test, now))
      ensures tested <==> !Refused(old(rows), integration, false)
      ensures tested ==>
                OthersAfter(old(rows), integration, rows) && TestLeaves(old(rows), integration, dto, test, now, rows[integration])
    {
      if !Refused(rows, integration, false) {
        TestInWords(rows, integration, dto, test, now);
      }
      if IsCatalog(integration) {
        var configuredType := InstanceCatalogProvider(rows);
        if configuredType.Some? && configuredType.value != integration {
          return false;
        }
      }
      var existing := Lookup(rows, integration);
      var values := MarkedValues(integration, dto, existing);
      var message := BASE_URL_REQUIRED;
      if IsSet(values.baseUrl) {
        if !test.Fails? {
          Persist(integration, HealthyRow(values, now));
          if test.Succeeds? {
            return true;
          }
        }
        message := test.message;
      }
      StoredTwice(old(rows), integration, HealthyRow(values, now), ErrorRow(values, existing, message, now));
      Persist(integration, ErrorRow(values, existing, message, now));
      return true;
    }

    method ResetOne(integration: IntegrationType)
      modifies this
      ensures rows == Next(old(rows), Reset(integration))
      ensures integration in rows && IsReset(rows[integration])
      ensures IsCatalog(integration) ==> STASHDB in rows && FANSDB in rows && IsReset(rows[STASHDB]) && IsReset(rows[FANSDB])
    {
      if IsCatalog(integration) {
        for i := 0 to |CATALOG_PROVIDER_KEYS|
          invariant rows == if i == 0 then old(rows)
                            else if i == 1 then old(rows)[STASHDB := BLANK_ROW]
                            else old(rows)[STASHDB := BLANK_ROW][FANSDB := BLANK_ROW]
        {
          rows := rows[CATALOG_PROVIDER_KEYS[i] := BLANK_ROW];
        }
        return;
      }
      rows := rows[integration := BLANK_ROW];
    }

    method ResetEvery()
      modifies this
      ensures rows == Next(old(rows), ResetAll)
      ensures forall t: IntegrationType :: t in rows && IsReset(rows[t])
    {
      for i := 0 to |INTEGRATION_TYPES|
        invariant forall k :: 0 <= k < i ==> INTEGRATION_TYPES[k] in rows && rows[INTEGRATION_TYPES[k]] == BLANK_ROW
      {
        rows := rows[INTEGRATION_TYPES[i] := BLANK_ROW];
      }
      ghost var blank := Next(old(rows), ResetAll);
      forall t: IntegrationType ensures t in rows && t in blank && rows[t] == blank[t] {
        assert INTEGRATION_TYPES[PositionOf(t)] == t && t in INTEGRATION_TYPES;
      }
    }
  }

  /** The row carries the selection mark or a base URL. */
  predicate Bears(rows: Rows, integration: IntegrationType) {
    integration in rows && (rows[integration].selected || rows[integration].baseUrl.Some?)
  }

  /** At most one catalog provider bears anything, and stored URLs are trimmed and not blank. */
  ghost predicate Locked(rows: Rows) {
    && !(Bears(rows, STASHDB) && Bears(rows, FANSDB))
    && (forall t :: t in rows && rows[t].baseUrl.Some? ==> CleanId(rows[t].baseUrl.value))
  }

  lemma FilterKeys(keep: IntegrationType -> bool)
    ensures Filter(keep, CATALOG_PROVIDER_KEYS)
            == (if keep(STASHDB) then [STASHDB] else []) + (if keep(FANSDB) then [FANSDB] else [])
  {
    assert CATALOG_PROVIDER_KEYS[..1] == [STASHDB] && [STASHDB][..0] == [];
  }

  /** Under the lock the instance's provider is the one that bears something. */
  lemma InstanceIsTheBearer(rows: Rows)
    requires Locked(rows)
    ensures forall t :: InstanceCatalogProvider(rows) == Some(t) <==> IsCatalog(t) && Bears(rows, t)
  {
    FilterKeys((t: IntegrationType) => t in rows && rows[t].selected);
    FilterKeys((t: IntegrationType) => HasUrl(rows, t));
  }

  /** A catalog provider is refused exactly when the other one bears something, or when it does itself and the save would
      leave it without a URL. */
  lemma WhatIsRefused(rows: Rows, integration: IntegrationType, clears: bool)
    requires Locked(rows)
    ensures Refused(rows, integration, clears)
            <==> IsCatalog(integration)
                 && ((exists other :: IsCatalog(other) && other != integration && Bears(rows, other))
                     || (clears && Bears(rows, integration)))
  {
    InstanceIsTheBearer(rows);
  }

  /** The configured provider, if any, is the instance's. */
  lemma ConfiguredIsTheInstance(rows: Rows)
    requires Locked(rows)
    ensures ConfiguredCatalogProvider(rows).None? || ConfiguredCatalogProvider(rows) == InstanceCatalogProvider(rows)
  {
    InstanceIsTheBearer(rows);
    FilterKeys((t: IntegrationType) => Ready(rows, t));
  }

  predicate ResetsCatalog(op: Op) {
    op.ResetAll? || (op.Reset? && IsCatalog(op.integration))
  }

  lemma StoredKeeps(rows: Rows, integration: IntegrationType, row: Row)
    requires Locked(rows) && !Refused(rows, integration, false)
    requires row.baseUrl.Some? ==> CleanId(row.baseUrl.value)
    ensures Locked(Stored(rows, integration, row))
    ensures forall t :: IsCatalog(t) && Bears(rows, t) && (t == integration ==> row.selected || row.baseUrl.Some?) ==>
              Bears(Stored(rows, integration, row), t)
  {
    InstanceIsTheBearer(rows);
  }

  lemma UrlStaysClean(integration: IntegrationType, dto: Update, existing: Option<Row>)
    requires existing.Some? && existing.value.baseUrl.Some? ==> CleanId(existing.value.baseUrl.value)
    ensures var row := ResolvePersistedValues(integration, dto, existing);
            && (row.baseUrl.Some? ==> CleanId(row.baseUrl.value))
            && (ExistingOrBlank(existing).baseUrl.Some? ==> row.baseUrl.Some?)
            && (ExistingOrBlank(existing).selected == row.selected)
  {
  }

  /** The lock holds and no catalog provider that bore something has lost it. */
  ghost predicate KeepsTheLock(rows: Rows, next: Rows) {
    && Locked(next)
    && (forall t :: IsCatalog(t) && Bears(rows, t) ==> Bears(next, t))
  }

  lemma SaveKeeps(rows: Rows, integration: IntegrationType, dto: Update)
    requires Locked(rows)
    ensures KeepsTheLock(rows, Next(rows, Save(integration, dto)))
  {
    UrlStaysClean(integration, dto, Lookup(rows, integration));
    var row := SavedRow(integration, dto, Lookup(rows, integration));
    if !Refused(rows, integration, !HasSavedConfig(integration, row)) {
      StoredKeeps(rows, integration, row);
    }
  }

  lemma TestKeeps(rows: Rows, integration: IntegrationType, dto: Update, test: Test, now: int)
    requires Locked(rows)
    ensures KeepsTheLock(rows, Next(rows, TestOf(integration, dto, test, now)))
  {
    UrlStaysClean(integration, dto, Lookup(rows, integration));
    if !Refused(rows, integration, false) {
      StoredKeeps(rows, integration, TestedRow(integration, dto, Lookup(rows, integration), test, now));
    }
  }

  lemma ResetKeeps(rows: Rows, op: Op)
    requires Locked(rows) && (op.Reset? || op.ResetAll?)
    ensures if ResetsCatalog(op) then Locked(Next(rows, op)) && InstanceCatalogProvider(Next(rows, op)) == None
            else KeepsTheLock(rows, Next(rows, op))
  {
    InstanceIsTheBearer(Next(rows, op));
  }

  /** Every operation keeps the lock, and none but a catalog reset takes the instance's provider away. */
  lemma OpKeeps(rows: Rows, op: Op)
    requires Locked(rows)
    ensures if ResetsCatalog(op) then Locked(Next(rows, op)) && InstanceCatalogProvider(Next(rows, op)) == None
            else KeepsTheLock(rows, Next(rows, op))
  {
    match op
    case Save(t, dto) => SaveKeeps(rows, t, dto);
    case TestOf(t, dto, test, now) => TestKeeps(rows, t, dto, test, now);
    case Reset(_) => ResetKeeps(rows, op);
    case ResetAll => ResetKeeps(rows, op);
  }

  lemma InstanceKept(rows: Rows, next: Rows, provider: IntegrationType)
    requires Locked(rows) && KeepsTheLock(rows, next) && InstanceCatalogProvider(rows) == Some(provider)
    ensures InstanceCatalogProvider(next) == Some(provider)
  {
    InstanceIsTheBearer(rows);
    InstanceIsTheBearer(next);
  }

  predicate GivesUrl(dto: Update) {
    dto.baseUrl.Some? && Trim(dto.baseUrl.value) != ""
  }

  lemma SavedUrl(rows: Rows, integration: IntegrationType, dto: Update)
    requires IsCatalog(integration) && !Bears(rows, integration)
    ensures var row := SavedRow(integration, dto, Lookup(rows, integration));
            && (row.baseUrl.Some? <==> GivesUrl(dto)) && (IsSet(row.baseUrl) <==> GivesUrl(dto)) && (row.selected <==> GivesUrl(dto))
  {
  }

  /** Exactly the given catalog provider bears something. */
  ghost predicate BornBy(rows: Rows, provider: Option<IntegrationType>) {
    && (provider.Some? ==> IsCatalog(provider.value))
    && (forall t :: IsCatalog(t) ==> (Bears(rows, t) <==> provider == Some(t)))
  }

  lemma InstanceIsBornBy(rows: Rows, provider: Option<IntegrationType>)
    requires Locked(rows)
    ensures BornBy(rows, provider) <==> InstanceCatalogProvider(rows) == provider
  {
    InstanceIsTheBearer(rows);
  }

  lemma StoredBears(rows: Rows, integration: IntegrationType, row: Row)
    requires BornBy(rows, None)
    ensures BornBy(Stored(rows, integration, row),
                   if IsCatalog(integration) && (row.selected || row.baseUrl.Some?) then Some(integration) else None)
  {
  }

  lemma SaveLocks(rows: Rows, integration: IntegrationType, dto: Update)
    requires Locked(rows) && BornBy(rows, None)
    ensures BornBy(Next(rows, Save(integration, dto)), if IsCatalog(integration) && GivesUrl(dto) then Some(integration) else None)
  {
    InstanceIsBornBy(rows, None);
    StoredBears(rows, integration, SavedRow(integration, dto, Lookup(rows, integration)));
    if IsCatalog(integration) {
      SavedUrl(rows, integration, dto);
    }
  }

  lemma TestLocks(rows: Rows, integration: IntegrationType, dto: Update, test: Test, now: int)
    requires Locked(rows) && BornBy(rows, None)
    ensures BornBy(Next(rows, TestOf(integration, dto, test, now)), if IsCatalog(integration) then Some(integration) else None)
  {
    InstanceIsBornBy(rows, None);
    StoredBears(rows, integration, TestedRow(integration, dto, Lookup(rows, integration), test, now));
  }

  /** What locks an instance not yet locked. */
  function LockedBy(op: Op): Option<IntegrationType> {
    if op.TestOf? && IsCatalog(op.integration) then Some(op.integration)
    else if op.Save? && IsCatalog(op.integration) && GivesUrl(op.dto) then Some(op.integration)
    else None
  }

  /** An unlocked instance is locked by saving a catalog provider with a URL, and by testing one, even when the
      test fails or has no URL; by nothing else. */
  lemma WhatLocks(rows: Rows, op: Op)
    requires Locked(rows) && InstanceCatalogProvider(rows) == None
    ensures InstanceCatalogProvider(Next(rows, op)) == LockedBy(op)
  {
    InstanceIsBornBy(rows, None);
    OpKeeps(rows, op);
    InstanceIsBornBy(Next(rows, op), LockedBy(op));
    match op
    case Save(t, dto) => SaveLocks(rows, t, dto);
    case TestOf(t, dto, test, now) => TestLocks(rows, t, dto, test, now);
    case Reset(_) =>
    case ResetAll =>
  }

  /** The rows after a run of operations. */
  function After(rows: Rows, ops: seq<Op>): Rows {
    if ops == [] then rows else Next(After(rows, ops[..|ops| - 1]), ops[|ops| - 1])
  }

  lemma {:induction false} AlwaysLocked(rows: Rows, ops: seq<Op>)
    requires Locked(rows)
    ensures Locked(After(rows, ops))
  {
    if ops != [] {
      AlwaysLocked(rows, ops[..|ops| - 1]);
      OpKeeps(After(rows, ops[..|ops| - 1]), ops[|ops| - 1]);
    }
  }

  /** Along every run from an empty table at most one catalog provider carries a mark or a URL, and the configured
      provider is none or the instance's. */
  lemma OneProviderAtATime(ops: seq<Op>)
    ensures var rows := After(map[], ops);
            && !(Bears(rows, STASHDB) && Bears(rows, FANSDB))
            && (ConfiguredCatalogProvider(rows).None? || ConfiguredCatalogProvider(rows) == InstanceCatalogProvider(rows))
  {
    AlwaysLocked(map[], ops);
    ConfiguredIsTheInstance(After(map[], ops));
  }

  /** Once set, in any state such a run reaches, the instance's provider stays until a catalog reset, which clears it. */
  lemma {:induction false} OnlyAResetUnlocks(rows: Rows, ops: seq<Op>, provider: IntegrationType)
    requires Locked(rows) && InstanceCatalogProvider(rows) == Some(provider)
    requires forall i :: 0 <= i < |ops| ==> !ResetsCatalog(ops[i])
    ensures InstanceCatalogProvider(After(rows, ops)) == Some(provider)
  {
    if ops != [] {
      var before, last := ops[..|ops| - 1], ops[|ops| - 1];
      OnlyAResetUnlocks(rows, before, provider);
      AlwaysLocked(rows, before);
      OpKeeps(After(rows, before), last);
      InstanceKept(After(rows, before), After(rows, ops), provider);
    }
  }
}
