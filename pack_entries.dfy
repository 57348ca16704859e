/**
 * The per-document scrubbing of the compendium tooling (cleanPackEntry in utils/packs.mjs)
 * and the three selections it is driven by: which source folders to compile, which packs
 * of the system manifest to extract, and which documents of a pack to write out.
 */
module PackEntries {
  import opened Wrappers
  import opened Seqs
  import opened PackStrings

  // ---------------------------------------------------------------------------------------
  // Documents
  // ---------------------------------------------------------------------------------------

  /** A JSON value as it appears inside `flags` and `_stats`. */
  datatype Json =
    | JNull
    | JBool(b: bool)
    | JNum(n: int)
    | JStr(s: string)
    | JArr(elems: seq<Json>)
    | JObj(fields: map<string, Json>)

  /** JavaScript truthiness of a JSON value. */
  predicate Truthy(j: Json)
  {
    match j
    case JNull => false
    case JBool(b) => b
    case JNum(n) => n != 0
    case JStr(s) => s != []
    case JArr(_) => true
    case JObj(_) => true
  }

  /**
   * A flag the sweep deletes: `null`, or a value with no own keys (`Object.keys` of a number
   * or a boolean is empty; of a string, one key per character; of an array, one per element).
   */
  predicate Hollow(j: Json)
  {
    match j
    case JNull => true
    case JBool(_) => true
    case JNum(_) => true
    case JStr(s) => s == []
    case JArr(a) => a == []
    case JObj(m) => m == map[]
  }

  /** The two members of `_stats` the scrubbing touches. */
  datatype Stats = Stats(compendiumSource: Option<Json>, lastModifiedBy: Option<Json>)

  /**
   * An embedded list (`effects`, `items`, `pages`). The scrubbing neither adds nor removes
   * one, so a missing list and an empty one are told apart only to keep the record as it was.
   */
  datatype Children = Absent | Present(entries: seq<Entry>)

  /**
   * A document as far as the scrubbing reads it: `name`, `label`, `system.description.value`,
   * `ownership`, `_stats`, `flags` and the three embedded lists. `None` is a missing member.
   */
  datatype Entry = Entry(
    name: Option<string>,
    labelText: Option<string>,
    description: Option<string>,
    ownership: Option<map<string, int>>,
    stats: Option<Stats>,
    flags: Option<map<string, Json>>,
    effects: Children,
    items: Children,
    pages: Children)

  /** The value the last editor is replaced with. */
  const Builder: string := "sacramentobuilder"

  // ---------------------------------------------------------------------------------------
  // cleanPackEntry
  // ---------------------------------------------------------------------------------------

  /**
   * The deletions on `flags`: `core.sourceId` when `clearSourceId` holds (and `core` is an
   * object), then `importSource` and `exportSource`.
   */
  function StripFlags(f: map<string, Json>, clearSourceId: bool): (r: map<string, Json>)
    ensures r.Keys == f.Keys - {"importSource", "exportSource"}
    ensures forall k :: k in r && k != "core" ==> r[k] == f[k]
    ensures "core" in r && clearSourceId && f["core"].JObj? ==>
              r["core"] == JObj(f["core"].fields - {"sourceId"})
    ensures "core" in r && !(clearSourceId && f["core"].JObj?) ==> r["core"] == f["core"]
  {
    var core :=
      if clearSourceId && "core" in f && f["core"].JObj?
      then f["core" := JObj(f["core"].fields - {"sourceId"})]
      else f;
    core - {"importSource", "exportSource"}
  }

  /** The sweep: every `null` or empty flag is deleted, every other one kept as it is. */
  function Sweep(f: map<string, Json>): (r: map<string, Json>)
    ensures r.Keys <= f.Keys
    ensures forall k :: k in f ==> (k in r <==> !Hollow(f[k]))
    ensures forall k :: k in r ==> r[k] == f[k]
  {
    map k | k in f && !Hollow(f[k]) :: f[k]
  }

  /** `flags` after the deletions, the `{}` default of a missing object, and the sweep. */
  function CleanFlags(flags: Option<map<string, Json>>, clearSourceId: bool): (r: map<string, Json>)
    ensures FlagsClean(r, clearSourceId)
    ensures r.Keys <= flags.GetOr(map[]).Keys
    ensures forall k :: k in flags.GetOr(map[]) && k !in {"importSource", "exportSource", "core"} ==>
              (k in r <==> !Hollow(flags.GetOr(map[])[k])) && (k in r ==> r[k] == flags.GetOr(map[])[k])
  {
    Sweep(StripFlags(flags.GetOr(map[]), clearSourceId))
  }

  /** `_stats` after dropping the compendium source and renaming a truthy last editor. */
  function CleanStats(stats: Option<Stats>, clearSourceId: bool): (r: Option<Stats>)
    ensures r.Some? <==> stats.Some?
    ensures r.Some? ==>
              && r.value.compendiumSource == (if clearSourceId then None else stats.value.compendiumSource)
              && (stats.value.lastModifiedBy.Some? && Truthy(stats.value.lastModifiedBy.value) ==>
                    r.value.lastModifiedBy == Some(JStr(Builder)))
              && (r.value.lastModifiedBy.Some? && Truthy(r.value.lastModifiedBy.value) ==>
                    r.value.lastModifiedBy.value == JStr(Builder))
              && (!(stats.value.lastModifiedBy.Some? && Truthy(stats.value.lastModifiedBy.value)) ==>
                    r.value.lastModifiedBy == stats.value.lastModifiedBy)
  {
    match stats
    case None => None
    case Some(s) =>
      var last :=
        if s.lastModifiedBy.Some? && Truthy(s.lastModifiedBy.value) then Some(JStr(Builder))
        else s.lastModifiedBy;
      Some(Stats(if clearSourceId then None else s.compendiumSource, last))
  }

  /** A text member replaced by its cleanString when it is a non-empty string. */
  function CleanText(t: Option<string>): (r: Option<string>)
    ensures r.Some? <==> t.Some?
    ensures r.Some? ==> r.value == CleanString(t.value)
    ensures PlainText(r)
  {
    if t.Some? && t.value != [] then Some(CleanString(t.value)) else t
  }

  /** The flags a scrubbed document keeps: no `null` or empty entry, no import/export marks. */
  predicate FlagsClean(f: map<string, Json>, clearSourceId: bool)
  {
    && "importSource" !in f
    && "exportSource" !in f
    && (forall k :: k in f ==> !Hollow(f[k]))
    && (clearSourceId && "core" in f && f["core"].JObj? ==> "sourceId" !in f["core"].fields)
  }

  /** Text with none of the five typographic characters. */
  predicate PlainText(t: Option<string>)
  {
    t.Some? ==> forall c :: c in t.value ==> !IsTypographic(c)
  }

  /**
   * What cleanPackEntry(e, {clearSourceId, ownership}) leaves behind, all the way down:
   * ownership is exactly `{default: ownership}`, flags exist and are clean, the compendium
   * source is gone (with clearSourceId), a truthy last editor is the builder, the text is
   * plain, effects and items are scrubbed with (false, 0) and pages with (true, -1).
   */
  ghost predicate Scrubbed(e: Entry, clearSourceId: bool, ownership: int)
    decreases e
  {
    && (e.ownership.Some? ==> e.ownership.value == map["default" := ownership])
    && e.flags.Some? && FlagsClean(e.flags.value, clearSourceId)
    && (e.stats.Some? && clearSourceId ==> e.stats.value.compendiumSource.None?)
    && (e.stats.Some? && e.stats.value.lastModifiedBy.Some? && Truthy(e.stats.value.lastModifiedBy.value) ==>
          e.stats.value.lastModifiedBy.value == JStr(Builder))
    && PlainText(e.name) && PlainText(e.labelText) && PlainText(e.description)
    && (e.effects.Present? ==> forall c :: c in e.effects.entries ==> Scrubbed(c, false, 0))
    && (e.items.Present? ==> forall c :: c in e.items.entries ==> Scrubbed(c, false, 0))
    && (e.pages.Present? ==> forall c :: c in e.pages.entries ==> Scrubbed(c, true, -1))
  }

  /**
   * `cleanPackEntry(e, {clearSourceId, ownership})`, as a value: the record it leaves in
   * place of `e`.
   */
  function CleanPackEntry(e: Entry, clearSourceId: bool, ownership: int): (r: Entry)
    ensures r.ownership == if e.ownership.Some? then Some(map["default" := ownership]) else None
    ensures r.flags.Some? && FlagsClean(r.flags.value, clearSourceId)
    ensures r.flags == Some(CleanFlags(e.flags, clearSourceId))
    ensures r.stats == CleanStats(e.stats, clearSourceId)
    ensures r.stats.Some? <==> e.stats.Some?
    ensures r.stats.Some? ==>
              && r.stats.value.compendiumSource == (if clearSourceId then None else e.stats.value.compendiumSource)
              && (e.stats.value.lastModifiedBy.Some? && Truthy(e.stats.value.lastModifiedBy.value) ==>
                    r.stats.value.lastModifiedBy == Some(JStr(Builder)))
    ensures r.name.Some? <==> e.name.Some?
    ensures r.name.Some? ==> r.name.value == CleanString(e.name.value)
    ensures r.labelText.Some? <==> e.labelText.Some?
    ensures r.labelText.Some? ==> r.labelText.value == CleanString(e.labelText.value)
    ensures r.description.Some? <==> e.description.Some?
    ensures r.description.Some? ==> r.description.value == CleanString(e.description.value)
    ensures r.effects.Present? <==> e.effects.Present?
    ensures r.items.Present? <==> e.items.Present?
    ensures r.pages.Present? <==> e.pages.Present?
    ensures e.effects.Present? ==> r.effects == Present(CleanEach(e, e.effects.entries, false, 0))
    ensures e.items.Present? ==> r.items == Present(CleanEach(e, e.items.entries, false, 0))
    ensures e.pages.Present? ==> r.pages == Present(CleanEach(e, e.pages.entries, true, -1))
    ensures Scrubbed(r, clearSourceId, ownership)
    decreases e, 1
  {
    Entry(
      CleanText(e.name),
      CleanText(e.labelText),
      CleanText(e.description),
      if e.ownership.Some? then Some(map["default" := ownership]) else None,
      CleanStats(e.stats, clearSourceId),
      Some(CleanFlags(e.flags, clearSourceId)),
      if e.effects.Present? then Present(CleanEach(e, e.effects.entries, false, 0)) else Absent,
      if e.items.Present? then Present(CleanEach(e, e.items.entries, false, 0)) else Absent,
      if e.pages.Present? then Present(CleanEach(e, e.pages.entries, true, -1)) else Absent)
  }

  /** The `forEach` over one embedded list of `parent`, each element scrubbed with the given options. */
  function CleanEach(parent: Entry, es: seq<Entry>, clearSourceId: bool, ownership: int): (r: seq<Entry>)
    requires forall i :: 0 <= i < |es| ==> es[i] < parent
    ensures |r| == |es|
    ensures forall i :: 0 <= i < |es| ==> r[i] == CleanPackEntry(es[i], clearSourceId, ownership)
    ensures forall c :: c in r ==> Scrubbed(c, clearSourceId, ownership)
    decreases parent, 0, |es|
  {
    if es == [] then []
    else [CleanPackEntry(es[0], clearSourceId, ownership)] + CleanEach(parent, es[1..], clearSourceId, ownership)
  }

  /** A deleted `core.sourceId` that was the only member of `core` takes `core` with it. */
  lemma EmptiedCoreSwept(f: map<string, Json>, id: Json)
    requires "core" in f && f["core"] == JObj(map["sourceId" := id])
    ensures "core" !in CleanFlags(Some(f), true)
  {
    var stripped := StripFlags(f, true);
    assert stripped["core"].fields == map[] by {
      assert stripped["core"].fields.Keys == {};
    }
  }

  /** A scrubbed document is left as it is: cleanPackEntry changes nothing more on it. */
  lemma {:induction false} ScrubbedFixpoint(e: Entry, clearSourceId: bool, ownership: int)
    requires Scrubbed(e, clearSourceId, ownership)
    ensures CleanPackEntry(e, clearSourceId, ownership) == e
    decreases e, 1
  {
    var r := CleanPackEntry(e, clearSourceId, ownership);
    TextFixpoint(e.name);
    TextFixpoint(e.labelText);
    TextFixpoint(e.description);
    FlagsFixpoint(e.flags.value, clearSourceId);
    if e.effects.Present? {
      EachFixpoint(e, e.effects.entries, false, 0);
    }
    if e.items.Present? {
      EachFixpoint(e, e.items.entries, false, 0);
    }
    if e.pages.Present? {
      EachFixpoint(e, e.pages.entries, true, -1);
    }
  }

  /** The embedded lists of a scrubbed document are left as they are. */
  lemma {:induction false} EachFixpoint(parent: Entry, es: seq<Entry>, clearSourceId: bool, ownership: int)
    requires forall i :: 0 <= i < |es| ==> es[i] < parent
    requires forall c :: c in es ==> Scrubbed(c, clearSourceId, ownership)
    ensures CleanEach(parent, es, clearSourceId, ownership) == es
    decreases parent, 0, |es|
  {
    if es != [] {
      ScrubbedFixpoint(es[0], clearSourceId, ownership);
      EachFixpoint(parent, es[1..], clearSourceId, ownership);
      assert es == [es[0]] + es[1..];
    }
  }

  /** Plain text is left as it is. */
  lemma TextFixpoint(t: Option<string>)
    requires PlainText(t)
    ensures CleanText(t) == t
  {
    if t.Some? {
      CleanStringFixpoint(t.value);
    }
  }

  /** Clean flags are left as they are. */
  lemma FlagsFixpoint(f: map<string, Json>, clearSourceId: bool)
    requires FlagsClean(f, clearSourceId)
    ensures CleanFlags(Some(f), clearSourceId) == f
  {
    var stripped := StripFlags(f, clearSourceId);
    if clearSourceId && "core" in f && f["core"].JObj? {
      assert f["core"].fields - {"sourceId"} == f["core"].fields;
    }
    assert stripped == f;
  }

  /** cleanPackEntry is idempotent. */
  lemma CleanPackEntryIdempotent(e: Entry, clearSourceId: bool, ownership: int)
    ensures CleanPackEntry(CleanPackEntry(e, clearSourceId, ownership), clearSourceId, ownership)
         == CleanPackEntry(e, clearSourceId, ownership)
  {
    ScrubbedFixpoint(CleanPackEntry(e, clearSourceId, ownership), clearSourceId, ownership);
  }

  // ---------------------------------------------------------------------------------------
  // Selections
  // ---------------------------------------------------------------------------------------


  /** A directory entry of the source folder. */
  datatype DirEntry = DirEntry(name: string, isDirectory: bool)

  /** A pack listed in the system manifest. */
  datatype PackInfo = PackInfo(name: string, path: string)

  /** Whether the compile step takes a directory entry: it is a directory, and it has the pack name when one is given. */
  function FolderWanted(packName: Option<string>): DirEntry -> bool
  {
    (f: DirEntry) => f.isDirectory && (!TruthyText(packName) || packName.value == f.name)
  }

  /** Whether the extract step takes a pack: no pack name is given, or the pack has that name. */
  function PackWanted(packName: Option<string>): PackInfo -> bool
  {
    (p: PackInfo) => !TruthyText(packName) || packName.value == p.name
  }

  /** The folders the compile step processes: directories, and only the named one if a name was given. */
  function SelectFolders(files: seq<DirEntry>, packName: Option<string>): (r: seq<DirEntry>)
    ensures forall f :: f in r <==> f in files && f.isDirectory && (TruthyText(packName) ==> f.name == packName.value)
    ensures |r| <= |files|
  {
    FilterMembers(files, FolderWanted(packName));
    Filter(files, FolderWanted(packName))
  }

  /** The packs the extract step processes: all of them, or only the named one if a name was given. */
  function SelectPacks(packs: seq<PackInfo>, packName: Option<string>): (r: seq<PackInfo>)
    ensures forall p :: p in r <==> p in packs && (TruthyText(packName) ==> p.name == packName.value)
    ensures |r| <= |packs|
  {
    FilterMembers(packs, PackWanted(packName));
    Filter(packs, PackWanted(packName))
  }

  /** Without a pack name every pack is extracted, in manifest order. */
  lemma SelectPacksAll(packs: seq<PackInfo>, packName: Option<string>)
    requires !TruthyText(packName)
    ensures SelectPacks(packs, packName) == packs
  {
    FilterAll(packs, PackWanted(packName));
  }

  /** Without a pack name every directory of the listing is compiled, in listing order, and plain files are skipped. */
  lemma SelectFoldersAll(files: seq<DirEntry>, packName: Option<string>)
    requires !TruthyText(packName)
    ensures SelectFolders(files, packName) == Filter(files, (f: DirEntry) => f.isDirectory)
  {
    FilterSame(files, FolderWanted(packName), (f: DirEntry) => f.isDirectory);
  }

  /**
   * The document callback of the extract step: with an entry name given (lowered once up
   * front), a document whose lower-cased name differs is skipped (`None`); reading the name of
   * a document that has none throws; every other document is scrubbed with the defaults.
   */
  function TransformEntry(entryName: Option<string>, e: Entry): (r: Result<Option<Entry>, Fault>)
    ensures r.Failure? <==> TruthyText(entryName) && e.name.None?
    ensures r.Success? && r.value.Some? ==> r.value.value == CleanPackEntry(e, true, 0)
    ensures r.Success? ==>
              (r.value.None? <==> TruthyText(entryName) && LowerCase(entryName.value) != LowerCase(e.name.value))
  {
    var wanted := if entryName.Some? then Some(LowerCase(entryName.value)) else None;
    if TruthyText(wanted) && e.name.None? then Failure(TypeError)
    else if TruthyText(wanted) && wanted.value != LowerCase(e.name.value) then Success(None)
    else Success(Some(CleanPackEntry(e, true, 0)))
  }

  /** Documents whose names agree up to case are kept or skipped together. */
  lemma TransformEntryIgnoresCase(entryName: Option<string>, e1: Entry, e2: Entry)
    requires e1.name.Some? && e2.name.Some? && LowerCase(e1.name.value) == LowerCase(e2.name.value)
    ensures TransformEntry(entryName, e1).Success? && TransformEntry(entryName, e2).Success?
    ensures TransformEntry(entryName, e1).value.Some? <==> TransformEntry(entryName, e2).value.Some?
  {
  }

  /** A document the extract step writes out is scrubbed, and scrubbing it again changes nothing. */
  lemma TransformEntryScrubs(entryName: Option<string>, e: Entry)
    requires TransformEntry(entryName, e).Success? && TransformEntry(entryName, e).value.Some?
    ensures Scrubbed(TransformEntry(entryName, e).value.value, true, 0)
    ensures CleanPackEntry(TransformEntry(entryName, e).value.value, true, 0) == TransformEntry(entryName, e).value.value
  {
    CleanPackEntryIdempotent(e, true, 0);
  }
}
