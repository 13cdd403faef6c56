/** Which patch lists may be merged before they are written: the condition on the patches (indexing.service.ts). */
module MergeCondition {
  import opened Basics
  import opened Text
  import opened SceneIndex
  import opened PatchMerging

  /** How a property stands in a patch: missing, present without a value, or present with one. */
  datatype Presence = Missing | Emptied | Valued

  function PresenceOf<T>(field: Field<T>): Presence {
    match field
    case Absent => Missing
    case Undefined => Emptied
    case Given(_) => Valued
  }

  /** The properties of a patch that spreading treats alike: all but the scene id. */
  datatype Column =
    | RequestStatusColumn | RequestUpdatedAtColumn | DisplayColumn | MovieIdColumn | HasFileColumn
    | QueuePositionColumn | QueueStatusColumn | QueueStateColumn | ErrorMessageColumn
    | StashAvailableColumn | HydrationColumn | MetadataLastSyncedAtColumn | MetadataRetryAfterAtColumn
    | WhisparrLastSyncedAtColumn | StashLastSyncedAtColumn | LastSyncedAtColumn

  /** How the property stands in the patch. */
  function Property(patch: Patch, c: Column): Presence
  {
    match c
    case RequestStatusColumn => PresenceOf(patch.requestStatus)
    case RequestUpdatedAtColumn => PresenceOf(patch.requestUpdatedAt)
    case DisplayColumn => PresenceOf(patch.display)
    case MovieIdColumn => PresenceOf(patch.movieId)
    case HasFileColumn => PresenceOf(patch.hasFile)
    case QueuePositionColumn => PresenceOf(patch.queuePosition)
    case QueueStatusColumn => PresenceOf(patch.queueStatus)
    case QueueStateColumn => PresenceOf(patch.queueState)
    case ErrorMessageColumn => PresenceOf(patch.errorMessage)
    case StashAvailableColumn => PresenceOf(patch.stashAvailable)
    case HydrationColumn => PresenceOf(patch.hydration)
    case MetadataLastSyncedAtColumn => PresenceOf(patch.metadataLastSyncedAt)
    case MetadataRetryAfterAtColumn => PresenceOf(patch.metadataRetryAfterAt)
    case WhisparrLastSyncedAtColumn => PresenceOf(patch.whisparrLastSyncedAt)
    case StashLastSyncedAtColumn => PresenceOf(patch.stashLastSyncedAt)
    case LastSyncedAtColumn => PresenceOf(patch.lastSyncedAt)
  }

  /** One property through the patches of one scene, in order. */
  function History(patches: seq<Patch>, id: string, c: Column): seq<Presence>
  {
    if patches == [] then []
    else
      var earlier, last := History(patches[..|patches| - 1], id, c), patches[|patches| - 1];
      if SceneOf(last) == id && id != "" then earlier + [Property(last, c)] else earlier
  }

  /** A value, later emptied, and nothing more about the property after that. */
  predicate LosesValue(history: seq<Presence>) {
    exists i, j :: 0 <= i < j < |history| && history[i].Valued? && history[j].Emptied?
                   && forall k :: j < k < |history| ==> history[k].Missing?
  }

  /** For no scene and no property is the last word an explicit `undefined` after a value. */
  ghost predicate NoValueLost(patches: seq<Patch>) {
    forall id :: SceneKeepsValues(patches, id)
  }

  ghost predicate SceneKeepsValues(patches: seq<Patch>, id: string) {
    forall c: Column :: KeepsValue(patches, id, c)
  }

  predicate KeepsValue(patches: seq<Patch>, id: string, c: Column)
  {
    !LosesValue(History(patches, id, c))
  }

  /** Writing the merged patches once, whatever the table holds, gives what writing them in turn gives,
      exactly when no scene's property ends on an explicit `undefined` after a value. */
  lemma MergedOnceIsOneByOne(patches: seq<Patch>)
    ensures (forall rows :: Applied(rows, Merged(patches), map[]) == ApplyEach(rows, patches))
            <==> NoValueLost(patches)
  {
    CommutesExactly(patches);
    if MergeCommutes(patches) {
      forall rows ensures Applied(rows, Merged(patches), map[]) == ApplyEach(rows, patches) {
        forall id ensures Lookup(Applied(rows, Merged(patches), map[]), id) == Lookup(ApplyEach(rows, patches), id) {
          OnceAndEachAt(rows, patches, id);
          SameCleanSameRow(Lookup(rows, id), patches, id);
        }
        LookupsDecide(Applied(rows, Merged(patches), map[]), ApplyEach(rows, patches));
      }
    } else {
      var rows := TellingTable(patches);
    }
  }

  /** The fields one property takes through the patches of one scene, and what spreading them in order leaves. */
  function FieldsOf<T>(patches: seq<Patch>, id: string, f: Patch -> Field<T>): seq<Field<T>> {
    if patches == [] then []
    else
      var earlier, last := FieldsOf(patches[..|patches| - 1], id, f), patches[|patches| - 1];
      if SceneOf(last) == id && id != "" then earlier + [f(last)] else earlier
  }

  function LastPresent<T>(fields: seq<Field<T>>): Field<T> {
    if fields == [] then Absent else SpreadField(LastPresent(fields[..|fields| - 1]), fields[|fields| - 1])
  }

  predicate HasValue(history: seq<Presence>) {
    exists i :: 0 <= i < |history| && history[i].Valued?
  }

  lemma ValueSnoc(history: seq<Presence>, last: Presence)
    ensures HasValue(history + [last]) <==> HasValue(history) || last.Valued?
  {
    var longer := history + [last];
    assert longer[|history|] == last;
    assert forall i :: 0 <= i < |history| ==> longer[i] == history[i];
  }

  lemma LastPresentSnoc<T>(fields: seq<Field<T>>, last: Field<T>)
    ensures LastPresent(fields + [last]) == SpreadField(LastPresent(fields), last)
  {
    assert (fields + [last])[..|fields|] == fields;
  }

  lemma LastValue<T>(fields: seq<Field<T>>)
    ensures LastPresent(MapSeq(CleanField, fields)) == Absent <==> !HasValue(MapSeq(PresenceOf, fields))
  {
    if fields != [] {
      var before, last := fields[..|fields| - 1], fields[|fields| - 1];
      LastApart(fields);
      LastValue(before);
      MapSeqSnoc(CleanField, before, last);
      MapSeqSnoc(PresenceOf, before, last);
      LastPresentSnoc(MapSeq(CleanField, before), CleanField(last));
      ValueSnoc(MapSeq(PresenceOf, before), PresenceOf(last));
    }
  }

  /** Dropping `undefined` after spreading is dropping it before, exactly when no value is lost. */
  lemma {:induction false} FieldsCommute<T>(fields: seq<Field<T>>)
    ensures CleanField(LastPresent(fields)) == LastPresent(MapSeq(CleanField, fields))
            <==> !LosesValue(MapSeq(PresenceOf, fields))
  {
    if fields != [] {
      var before, last := fields[..|fields| - 1], fields[|fields| - 1];
      LastApart(fields);
      FieldsCommute(before);
      LastValue(before);
      LastPresentSnoc(before, last);
      MapSeqSnoc(CleanField, before, last);
      LastPresentSnoc(MapSeq(CleanField, before), CleanField(last));
      MapSeqSnoc(PresenceOf, before, last);
      LosesWithOneMore(MapSeq(PresenceOf, before), PresenceOf(last));
    }
  }

  lemma LosesWithOneMore(history: seq<Presence>, last: Presence)
    ensures LosesValue(history + [last])
            <==> (last.Missing? && LosesValue(history)) || (last.Emptied? && HasValue(history))
  {
    var longer := history + [last];
    if last.Missing? && LosesValue(history) {
      var i, j :| 0 <= i < j < |history| && history[i].Valued? && history[j].Emptied?
                  && forall k :: j < k < |history| ==> history[k].Missing?;
      assert longer[i].Valued? && longer[j].Emptied?;
    }
    if last.Emptied? && HasValue(history) {
      var i :| 0 <= i < |history| && history[i].Valued?;
      assert longer[i].Valued? && longer[|history|].Emptied?;
    }
    if i, j :| 0 <= i < j < |longer| && longer[i].Valued? && longer[j].Emptied?
               && forall k :: j < k < |longer| ==> longer[k].Missing? {
      assert history[i].Valued?;
      if j < |history| {
        assert longer[|history|].Missing? && history[j].Emptied?;
        assert forall k :: j < k < |history| ==> history[k] == longer[k];
      }
    }
  }

  /** The property `f` is `c`, and spreading and cleaning act on it alone. */
  ghost predicate IsProperty<T(!new)>(f: Patch -> Field<T>, c: Column) {
    && (forall id {:trigger f(Patch(id))} :: f(Patch(id)) == Absent)
    && (forall id, earlier, later {:trigger f(Spread(id, earlier, later))} ::
          f(Spread(id, earlier, later)) == SpreadField(f(earlier), f(later)))
    && (forall patch {:trigger f(CleanPatch(patch))} :: f(CleanPatch(patch)) == CleanField(f(patch)))
    && (forall patch {:trigger Property(patch, c)} :: Property(patch, c) == PresenceOf(f(patch)))
  }

  lemma {:induction false} MergedField<T(!new)>(patches: seq<Patch>, id: string, f: Patch -> Field<T>, c: Column)
    requires IsProperty(f, c)
    ensures f(Earlier(Merged(patches), id)) == LastPresent(FieldsOf(patches, id, f))
  {
    if patches != [] {
      var before, last := patches[..|patches| - 1], patches[|patches| - 1];
      MergedField(before, id, f, c);
      LastApart(patches);
      MergedSnocAt(before, last, id);
      assert (FieldsOf(before, id, f) + [f(last)])[..|FieldsOf(before, id, f)|] == FieldsOf(before, id, f);
    }
  }

  lemma {:induction false} CleanFields<T(!new)>(patches: seq<Patch>, id: string, f: Patch -> Field<T>, c: Column)
    requires IsProperty(f, c)
    ensures FieldsOf(CleanAll(patches), id, f) == MapSeq(CleanField, FieldsOf(patches, id, f))
  {
    if patches != [] {
      var before, last := patches[..|patches| - 1], patches[|patches| - 1];
      CleanFields(before, id, f, c);
      LastApart(patches);
      CleanSnoc(before, last);
      FieldsSnoc(CleanAll(before), CleanPatch(last), id, f);
      MapSeqSnoc(CleanField, FieldsOf(before, id, f), f(last));
    }
  }

  lemma CleanSnoc(patches: seq<Patch>, patch: Patch)
    ensures CleanAll(patches + [patch]) == CleanAll(patches) + [CleanPatch(patch)]
    ensures SceneOf(CleanPatch(patch)) == SceneOf(patch)
  {
  }

  lemma FieldsSnoc<T>(patches: seq<Patch>, patch: Patch, id: string, f: Patch -> Field<T>)
    ensures var earlier := FieldsOf(patches, id, f);
            FieldsOf(patches + [patch], id, f) == if SceneOf(patch) == id && id != "" then earlier + [f(patch)] else earlier
  {
    assert (patches + [patch])[..|patches|] == patches;
  }

  lemma {:induction false} HistoryOfFields<T(!new)>(patches: seq<Patch>, id: string, f: Patch -> Field<T>, c: Column)
    requires IsProperty(f, c)
    ensures History(patches, id, c) == MapSeq(PresenceOf, FieldsOf(patches, id, f))
  {
    if patches != [] {
      var before, last := patches[..|patches| - 1], patches[|patches| - 1];
      HistoryOfFields(before, id, f, c);
      MapSeqSnoc(PresenceOf, FieldsOf(before, id, f), f(last));
    }
  }

  lemma PropertyCommutes<T(!new)>(patches: seq<Patch>, id: string, f: Patch -> Field<T>, c: Column)
    requires IsProperty(f, c)
    ensures FieldCommutes(patches, id, f(Earlier(Merged(patches), id)), f(Earlier(Merged(CleanAll(patches)), id)), c)
  {
    MergedField(patches, id, f, c);
    MergedField(CleanAll(patches), id, f, c);
    CleanFields(patches, id, f, c);
    HistoryOfFields(patches, id, f, c);
    FieldsCommute(FieldsOf(patches, id, f));
  }

  /** The two merges of one scene that the condition compares, by property. */
  ghost predicate FieldCommutes<T(!new)>(patches: seq<Patch>, id: string, once: Field<T>, each: Field<T>, c: Column)
  {
    (CleanField(once) == each) == KeepsValue(patches, id, c)
  }

  lemma RequestStatusCommutes(patches: seq<Patch>, id: string)
    ensures FieldCommutes(
              patches, id, Earlier(Merged(patches), id).requestStatus, Earlier(Merged(CleanAll(patches)), id).requestStatus, RequestStatusColumn)
  {
    PropertyCommutes(patches, id, (patch: Patch) => patch.requestStatus, RequestStatusColumn);
  }

  lemma RequestUpdatedAtCommutes(patches: seq<Patch>, id: string)
    ensures FieldCommutes(
              patches, id, Earlier(Merged(patches), id).requestUpdatedAt, Earlier(Merged(CleanAll(patches)), id).requestUpdatedAt, RequestUpdatedAtColumn)
  {
    PropertyCommutes(patches, id, (patch: Patch) => patch.requestUpdatedAt, RequestUpdatedAtColumn);
  }

  lemma DisplayCommutes(patches: seq<Patch>, id: string)
    ensures FieldCommutes(
              patches, id, Earlier(Merged(patches), id).display, Earlier(Merged(CleanAll(patches)), id).display, DisplayColumn)
  {
    PropertyCommutes(patches, id, (patch: Patch) => patch.display, DisplayColumn);
  }

  lemma MovieIdCommutes(patches: seq<Patch>, id: string)
    ensures FieldCommutes(
              patches, id, Earlier(Merged(patches), id).movieId, Earlier(Merged(CleanAll(patches)), id).movieId, MovieIdColumn)
  {
    PropertyCommutes(patches, id, (patch: Patch) => patch.movieId, MovieIdColumn);
  }

  lemma HasFileCommutes(patches: seq<Patch>, id: string)
    ensures FieldCommutes(
              patches, id, Earlier(Merged(patches), id).hasFile, Earlier(Merged(CleanAll(patches)), id).hasFile, HasFileColumn)
  {
    PropertyCommutes(patches, id, (patch: Patch) => patch.hasFile, HasFileColumn);
  }

  lemma QueuePositionCommutes(patches: seq<Patch>, id: string)
    ensures FieldCommutes(
              patches, id, Earlier(Merged(patches), id).queuePosition, Earlier(Merged(CleanAll(patches)), id).queuePosition, QueuePositionColumn)
  {
    PropertyCommutes(patches, id, (patch: Patch) => patch.queuePosition, QueuePositionColumn);
  }

  lemma QueueStatusCommutes(patches: seq<Patch>, id: string)
    ensures FieldCommutes(
              patches, id, Earlier(Merged(patches), id).queueStatus, Earlier(Merged(CleanAll(patches)), id).queueStatus, QueueStatusColumn)
  {
    PropertyCommutes(patches, id, (patch: Patch) => patch.queueStatus, QueueStatusColumn);
  }

  lemma QueueStateCommutes(patches: seq<Patch>, id: string)
    ensures FieldCommutes(
              patches, id, Earlier(Merged(patches), id).queueState, Earlier(Merged(CleanAll(patches)), id).queueState, QueueStateColumn)
  {
    PropertyCommutes(patches, id, (patch: Patch) => patch.queueState, QueueStateColumn);
  }

  lemma ErrorMessageCommutes(patches: seq<Patch>, id: string)
    ensures FieldCommutes(
              patches, id, Earlier(Merged(patches), id).errorMessage, Earlier(Merged(CleanAll(patches)), id).errorMessage, ErrorMessageColumn)
  {
    PropertyCommutes(patches, id, (patch: Patch) => patch.errorMessage, ErrorMessageColumn);
  }

  lemma StashAvailableCommutes(patches: seq<Patch>, id: string)
    ensures FieldCommutes(
              patches, id, Earlier(Merged(patches), id).stashAvailable, Earlier(Merged(CleanAll(patches)), id).stashAvailable, StashAvailableColumn)
  {
    PropertyCommutes(patches, id, (patch: Patch) => patch.stashAvailable, StashAvailableColumn);
  }

  lemma HydrationCommutes(patches: seq<Patch>, id: string)
    ensures FieldCommutes(
              patches, id, Earlier(Merged(patches), id).hydration, Earlier(Merged(CleanAll(patches)), id).hydration, HydrationColumn)
  {
    PropertyCommutes(patches, id, (patch: Patch) => patch.hydration, HydrationColumn);
  }

  lemma MetadataLastSyncedAtCommutes(patches: seq<Patch>, id: string)
    ensures FieldCommutes(
              patches, id, Earlier(Merged(patches), id).metadataLastSyncedAt, Earlier(Merged(CleanAll(patches)), id).metadataLastSyncedAt, MetadataLastSyncedAtColumn)
  {
    PropertyCommutes(patches, id, (patch: Patch) => patch.metadataLastSyncedAt, MetadataLastSyncedAtColumn);
  }

  lemma MetadataRetryAfterAtCommutes(patches: seq<Patch>, id: string)
    ensures FieldCommutes(
              patches, id, Earlier(Merged(patches), id).metadataRetryAfterAt, Earlier(Merged(CleanAll(patches)), id).metadataRetryAfterAt, MetadataRetryAfterAtColumn)
  {
    PropertyCommutes(patches, id, (patch: Patch) => patch.metadataRetryAfterAt, MetadataRetryAfterAtColumn);
  }

  lemma WhisparrLastSyncedAtCommutes(patches: seq<Patch>, id: string)
    ensures FieldCommutes(
              patches, id, Earlier(Merged(patches), id).whisparrLastSyncedAt, Earlier(Merged(CleanAll(patches)), id).whisparrLastSyncedAt, WhisparrLastSyncedAtColumn)
  {
    PropertyCommutes(patches, id, (patch: Patch) => patch.whisparrLastSyncedAt, WhisparrLastSyncedAtColumn);
  }

  lemma StashLastSyncedAtCommutes(patches: seq<Patch>, id: string)
    ensures FieldCommutes(
              patches, id, Earlier(Merged(patches), id).stashLastSyncedAt, Earlier(Merged(CleanAll(patches)), id).stashLastSyncedAt, StashLastSyncedAtColumn)
  {
    PropertyCommutes(patches, id, (patch: Patch) => patch.stashLastSyncedAt, StashLastSyncedAtColumn);
  }

  lemma LastSyncedAtCommutes(patches: seq<Patch>, id: string)
    ensures FieldCommutes(
              patches, id, Earlier(Merged(patches), id).lastSyncedAt, Earlier(Merged(CleanAll(patches)), id).lastSyncedAt, LastSyncedAtColumn)
  {
    PropertyCommutes(patches, id, (patch: Patch) => patch.lastSyncedAt, LastSyncedAtColumn);
  }

  /** One scene's merged patch is the same cleaned before or after merging exactly when none of its properties loses
      a value. */
  lemma SceneCommutes(patches: seq<Patch>, id: string)
    requires Earlier(Merged(patches), id).stashId == Earlier(Merged(CleanAll(patches)), id).stashId
    ensures CleanPatch(Earlier(Merged(patches), id)) == Earlier(Merged(CleanAll(patches)), id) <==> SceneKeepsValues(patches, id)
  {
    RequestStatusCommutes(patches, id);
    RequestUpdatedAtCommutes(patches, id);
    DisplayCommutes(patches, id);
    MovieIdCommutes(patches, id);
    HasFileCommutes(patches, id);
    QueuePositionCommutes(patches, id);
    QueueStatusCommutes(patches, id);
    QueueStateCommutes(patches, id);
    ErrorMessageCommutes(patches, id);
    StashAvailableCommutes(patches, id);
    HydrationCommutes(patches, id);
    MetadataLastSyncedAtCommutes(patches, id);
    MetadataRetryAfterAtCommutes(patches, id);
    WhisparrLastSyncedAtCommutes(patches, id);
    StashLastSyncedAtCommutes(patches, id);
    LastSyncedAtCommutes(patches, id);
    EveryColumn(patches, id);
  }

  lemma EveryColumn(patches: seq<Patch>, id: string)
    ensures SceneKeepsValues(patches, id) <==>
              KeepsValue(patches, id, RequestStatusColumn) && KeepsValue(patches, id, RequestUpdatedAtColumn) &&
              KeepsValue(patches, id, DisplayColumn) && KeepsValue(patches, id, MovieIdColumn) &&
              KeepsValue(patches, id, HasFileColumn) && KeepsValue(patches, id, QueuePositionColumn) &&
              KeepsValue(patches, id, QueueStatusColumn) && KeepsValue(patches, id, QueueStateColumn) &&
              KeepsValue(patches, id, ErrorMessageColumn) && KeepsValue(patches, id, StashAvailableColumn) &&
              KeepsValue(patches, id, HydrationColumn) && KeepsValue(patches, id, MetadataLastSyncedAtColumn) &&
              KeepsValue(patches, id, MetadataRetryAfterAtColumn) && KeepsValue(patches, id, WhisparrLastSyncedAtColumn) &&
              KeepsValue(patches, id, StashLastSyncedAtColumn) && KeepsValue(patches, id, LastSyncedAtColumn)
  {
    if !SceneKeepsValues(patches, id) {
      var c: Column :| !KeepsValue(patches, id, c);
      match c
      case RequestStatusColumn =>
      case _ =>
    }
  }

  lemma CommutesExactly(patches: seq<Patch>)
    ensures MergeCommutes(patches) <==> NoValueLost(patches)
  {
    var once, each := Merged(patches), Merged(CleanAll(patches));
    MergedKeys(patches);
    MergedKeys(CleanAll(patches));
    forall id ensures CleanPatch(Earlier(once, id)) == Earlier(each, id) <==> SceneKeepsValues(patches, id) {
      SceneCommutes(patches, id);
    }
    CommutesByScene(once, each);
  }

  lemma CommutesByScene(once: map<string, Patch>, each: map<string, Patch>)
    requires once.Keys == each.Keys
    ensures CleanValues(once) == each <==> forall id :: CleanPatch(Earlier(once, id)) == Earlier(each, id)
  {
    if forall id :: CleanPatch(Earlier(once, id)) == Earlier(each, id) {
      forall id | id in once ensures CleanPatch(once[id]) == each[id] {
        assert CleanPatch(Earlier(once, id)) == Earlier(each, id);
      }
    }
  }

  lemma {:induction false} HistoryMember(patches: seq<Patch>, id: string, c: Column, i: nat)
    requires i < |History(patches, id, c)|
    ensures exists k :: 0 <= k < |patches| && Property(patches[k], c) == History(patches, id, c)[i]
  {
    var n := |patches| - 1;
    var earlier := History(patches[..n], id, c);
    if i < |earlier| {
      HistoryMember(patches[..n], id, c, i);
      var k :| 0 <= k < n && Property(patches[..n][k], c) == earlier[i];
      assert patches[k] == patches[..n][k];
    } else {
      assert Property(patches[n], c) == History(patches, id, c)[i];
    }
  }

  /** Patches whose properties are absent or set lose no value. */
  lemma NoUndefinedCommutes(patches: seq<Patch>)
    requires forall i :: 0 <= i < |patches| ==> CleanPatch(patches[i]) == patches[i]
    ensures NoValueLost(patches)
  {
    forall id, c: Column ensures !LosesValue(History(patches, id, c)) {
      forall j | 0 <= j < |History(patches, id, c)| ensures !History(patches, id, c)[j].Emptied? {
        HistoryMember(patches, id, c, j);
        var k :| 0 <= k < |patches| && Property(patches[k], c) == History(patches, id, c)[j];
        CleanNotEmptied(patches[k], c);
      }
    }
  }

  lemma CleanNotEmptied(patch: Patch, c: Column)
    requires CleanPatch(patch) == patch
    ensures !Property(patch, c).Emptied?
  {
    assert CleanPatch(patch) == patch;
  }

  /** So do patches of different scenes, which is how the targeted refresh passes `undefined`. */
  lemma DistinctScenesCommute(patches: seq<Patch>)
    requires NoDuplicates(MapSeq(SceneOf, patches))
    ensures NoValueLost(patches)
  {
    forall id, c: Column ensures !LosesValue(History(patches, id, c)) {
      ShortHistory(patches, id, c);
    }
  }

  lemma {:induction false} ShortHistory(patches: seq<Patch>, id: string, c: Column)
    requires NoDuplicates(MapSeq(SceneOf, patches))
    ensures |History(patches, id, c)| <= 1
    ensures id !in MapSeq(SceneOf, patches) ==> History(patches, id, c) == []
  {
    if patches != [] {
      var n := |patches| - 1;
      var scenes := MapSeq(SceneOf, patches);
      assert MapSeq(SceneOf, patches[..n]) == scenes[..n];
      assert scenes[n] == SceneOf(patches[n]) && scenes[n] !in scenes[..n];
      ShortHistory(patches[..n], id, c);
    }
  }

  /** An explicit `undefined` after a value loses the value: some table ends up different. */
  lemma UndefinedLosesValue() returns (rows: Table)
    ensures var patches := [Patch("a", movieId := Given(Some(1))), Patch("a", movieId := Undefined)];
            Applied(rows, Merged(patches), map[]) != ApplyEach(rows, patches)
  {
    var first, second := Patch("a", movieId := Given(Some(1))), Patch("a", movieId := Undefined);
    ValueLost(first, second);
    CommutesExactly([first, second]);
    rows := TellingTable([first, second]);
  }

  lemma HistorySnoc(patches: seq<Patch>, patch: Patch, id: string, c: Column)
    ensures var earlier := History(patches, id, c);
            History(patches + [patch], id, c) == if SceneOf(patch) == id && id != "" then earlier + [Property(patch, c)] else earlier
  {
    assert (patches + [patch])[..|patches|] == patches;
  }

  lemma ValueLost(first: Patch, second: Patch)
    requires first.stashId == second.stashId && CleanId(first.stashId)
    requires first.movieId.Given? && second.movieId.Undefined?
    ensures !NoValueLost([first, second])
  {
    var id, patches := first.stashId, [first, second];
    HistorySnoc([], first, id, MovieIdColumn);
    HistorySnoc([first], second, id, MovieIdColumn);
    assert [] + [first] == [first] && [first] + [second] == patches;
    var history := History(patches, id, MovieIdColumn);
    assert history[0].Valued? && history[1].Emptied?;
    assert !KeepsValue(patches, id, MovieIdColumn);
    assert !SceneKeepsValues(patches, id);
  }
}
