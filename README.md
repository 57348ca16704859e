# Sacramento RPG system: a verified model of its rules and tooling core

This project models, in Dafny, the parts of the Sacramento RPG system (a game system
add-on for a virtual tabletop) that compute something:

- the actor document (module/documents/actor.mjs):
  - the derived-statistics passes for characters and NPCs
  - the pre-update guard that turns pain dropping to 0 into the loss of one health point
  - the roll-data shortcuts
- the active-effect partition into temporary, passive and inactive categories
  (module/helpers/effects.mjs)
- the compendium tooling (utils/packs.mjs):
  - `cleanString` and `slugify`
  - the recursive `cleanPackEntry` scrub
  - the pack, folder and entry selections
  - `buildPath` and `transformName`, which decide where each extracted document is written
- the release script (utils/update-manifest.js): the version decision and the manifest URL
  overrides.

Modules:

| file | module | models |
|---|---|---|
| wrappers.dfy | `Wrappers` | `Option` (a missing JavaScript value), `Result`, `Fault` (a thrown TypeError) |
| seqs.dfy | `Seqs` | `Filter` and its lemmas (JavaScript `Array.prototype.filter`) |
| actor.dfy | `Actor` | the actor record; `ActorDocument` as a class whose methods update `system` in place |
| effects.dfy | `Effects` | `prepareActiveEffectCategories` as a loop pushing into three lists |
| pack_strings.dfy | `PackStrings` | `cleanString`, `slugify` |
| pack_entries.dfy | `PackEntries` | `cleanPackEntry`, the selections on lines 113, 135 and 188 |
| pack_paths.dfy | `PackPaths` | the folder and container tables, `buildPath`, `transformName` |
| update_manifest.dfy | `UpdateManifest` | `getSystemVersion`, `newManifestData`, the in-place manifest update |

JavaScript defaulting is modelled explicitly:

- `x || d` is `Actor.OrFalsy`. It maps both a missing value and 0 to `d`. So a challenge
  rating of 0 gives NdC 1, and a pain maximum of 0 gives 6.
- `x ?? d` is `Option.GetOr`, which defaults only a missing value.
- Environment variables and command-line options count as truthy only when set and non-empty.
- A missing value interpolated into a template literal prints as `undefined`.

The derivation, the guard and the extraction can throw a TypeError. The model records three
such cases:

- An NPC without a health record throws on line 89 or 95. Pain and defense have already been
  written by then (`Actor.NpcDerived`, `Outcome.Threw`).
- The guard reads `this.system.health.value` and `this.system.pain.max` without presence
  checks, so it throws when either record is missing (`Actor.GuardChanges`).
- Extraction with an entry name throws on a document that has no name (`PackEntries.TransformEntry`).

Other throws are outside the model's inputs, and "## Left out" lists them.

Facts the model establishes about the code as written:

- The character `actions` rule accumulates. Each pass adds `cor` again (`Actor.ActionsAccumulate`),
  so the character pass is not idempotent (`Actor.CharacterNotIdempotent`). The NPC pass is
  idempotent.
- The `@ndc` roll shortcut uses `?? 0`, while the statistics use `|| 1`. An NPC with challenge
  rating 0 therefore gets NdC 1 in its statistics and `@ndc` 0 in its rolls
  (`Actor.NdcShortcutDisagrees`).
- `slugify` removes only the first apostrophe, because it passes a string pattern to `replace`.
- An untagged CI build appends the commit SHA to the version. Running the script twice appends
  it twice (`UpdateManifest.UntaggedAccumulates`).

## Model

| member | source | states |
|---|---|---|
| Actor.OrFalsy | module/documents/actor.mjs:46-49 | the or-default on a number: the value when present and non-zero, else the default |
| Actor.Score | module/documents/actor.mjs:46-49 | an ability's score is its value when the ability and a non-zero value exist, else 0 |
| Actor.NpcCommon | module/documents/actor.mjs:83-84 | pain.max becomes 6 and defense becomes 5, each only where the record exists (presence kept both ways); abilities, health and the other attributes are unchanged |
| Actor.ChallengeRating | module/documents/actor.mjs:78 | NdC is the challenge-rating value, 1 when absent or 0; never 0 |
| Actor.CharacterDerived | module/documents/actor.mjs:39-68 | health.max = 6 + fis; moviment = 2 + vel; antecedents = 4 + int; actions = previous (0 if absent) + cor. Each applies only where the record exists, with absence preserved both ways. Every ability's mod equals its value, with the same keys. Pain and the other attributes are unchanged |
| Actor.NpcDerived | module/documents/actor.mjs:73-100 | pain.max = 6 and defense = 5 where present. Special: health.max = 6·NdC and actions = NdC + 3. Otherwise: health.max = 3·NdC and actions = NdC + 1. Without a health record, health and actions are left as they were. Abilities and other attributes are unchanged |
| Actor.CharacterAssignmentsStable | module/documents/actor.mjs:52-67 | a second character pass leaves health, moviment, antecedents and abilities as the first left them |
| Actor.ActionsAccumulate | module/documents/actor.mjs:61-63 | after n passes, actions = original (0 if absent) + n·cor |
| Actor.CharacterNotIdempotent | module/documents/actor.mjs:61-63 | with actions present and cor ≠ 0, two character passes differ from one |
| Actor.NpcIdempotent | module/documents/actor.mjs:83-99 | a second NPC pass changes nothing |
| Actor.ActorDocument.PrepareDerivedData | module/documents/actor.mjs:26-34 | the type tag selects exactly one pass: character → CharacterDerived, npc → NpcDerived (throws iff health is missing), any other type → unchanged |
| Actor.ActorDocument.PrepareCharacterData | module/documents/actor.mjs:39-68 | the in-place pass, with its loop over abilities, leaves `system` equal to CharacterDerived of the old record; non-characters are untouched |
| Actor.ActorDocument.MirrorModifiers | module/documents/actor.mjs:64-67 | the loop over the abilities sets every modifier to its ability's value (a missing value leaves the modifier missing), keeping the keys and everything else in `system` |
| Actor.ActorDocument.PrepareNpcData | module/documents/actor.mjs:73-100 | leaves `system` equal to NpcDerived of the old record, and reports a throw exactly when health is missing; non-NPCs are untouched |
| Actor.GuardChanges | module/documents/actor.mjs:109-124 | no pain key or pain > 0: unchanged. Pain ≤ 0 with a record missing: TypeError. Otherwise pain becomes pain.max (6 if absent or 0); health becomes current − 1 only when current > 0; no other key changes and only the health key may be added |
| Actor.GuardIdempotent | module/documents/actor.mjs:114-123 | the guard applied to its own output returns it unchanged |
| Actor.GuardLosesOneHealth | module/documents/actor.mjs:113-123 | health 3, pain max 6, pending pain 0 → {pain 6, health 2} |
| Actor.GuardAtZeroHealth | module/documents/actor.mjs:118-123 | health 0, pending pain −2 → {pain 6}, health untouched |
| Actor.ActorDocument.PreUpdate | module/documents/actor.mjs:106-126 | the method amends the change set exactly as GuardChanges says, reading the stored record |
| Actor.SystemEntries | module/documents/actor.mjs:133 | the spread copy of the model's record has exactly the keys abilities, attributes, and health and pain when present, holding the record's own values |
| Actor.AbilityShortcuts | module/documents/actor.mjs:150-156 | with an abilities entry, every ability is added under its own key and every other key keeps its value; without one the data is unchanged |
| Actor.LevelShortcut | module/documents/actor.mjs:159-161 | `lvl` is added, holding level ?? 0, exactly when a level record exists; every other key keeps its value, and without a level record the data is returned unchanged |
| Actor.NdcShortcut | module/documents/actor.mjs:172-174 | `ndc` is added, holding cr ?? 0, exactly when a cr record exists; every other key keeps its value, and without a cr record the data is returned unchanged |
| Actor.RollDataOf | module/documents/actor.mjs:131-175 | roll data is the system copy. A character adds every ability under its key, overwriting a system entry of the same name, plus `lvl` = level ?? 0 when a level record exists and no ability named `attributes` replaced it, overwriting an ability named `lvl`. An NPC adds `ndc` = cr ?? 0 when a cr record exists. Nothing else is added or changed |
| Actor.CharacterRollShape | module/documents/actor.mjs:145-162 | the character branch: exactly the system keys, the ability keys and `lvl` when added; abilities overwrite system entries of the same name, `lvl` overwrites an ability named `lvl`, every other system entry is unchanged |
| Actor.NpcRollShape | module/documents/actor.mjs:167-175 | the NPC branch: exactly the system keys plus `ndc` when a cr record exists, the system entries unchanged |
| Actor.NdcShortcutDisagrees | module/documents/actor.mjs:172-174 | with challenge rating 0, NdC is 1 but `@ndc` is 0 |
| Actor.ActorDocument.GetRollData | module/documents/actor.mjs:131-140 | returns RollDataOf(type, system) |
| Actor.ActorDocument.CharacterRollData | module/documents/actor.mjs:145-162 | its loop copies every ability to the top level, then adds the level shortcut; only for characters |
| Actor.ActorDocument.NpcRollData | module/documents/actor.mjs:167-175 | adds the NdC shortcut; only for NPCs |
| Effects.KindOf | module/helpers/effects.mjs:63-65 | disabled → inactive whether temporary or not; enabled temporary → temporary; enabled non-temporary → passive |
| Effects.PrepareActiveEffectCategories | module/helpers/effects.mjs:41-68 | each category holds, in input order, exactly the effects of its kind, under the given type and label. Each effect is in a category iff of that kind, and the lengths sum to the input length |
| Effects.PartitionExact | module/helpers/effects.mjs:62-66 | the three categories together are a permutation of the input (multiset sum) |
| Effects.PartitionLengths | module/helpers/effects.mjs:62-66 | the lengths of the three categories add up to the input's |
| Effects.SortedIntoOne | module/helpers/effects.mjs:63-65 | an input effect lies in exactly one category |
| Effects.OrderKept | module/helpers/effects.mjs:62-66 | a category of a concatenation is the concatenation of the categories: relative order is kept |
| PackStrings.ReplaceAll | utils/packs.mjs:91-93 | a global character-class replace: every character of the result is an unreplaced input character or from the replacement |
| PackStrings.CleanString | utils/packs.mjs:89-94 | the result contains none of U+2060, U+2018, U+2019, U+201C, U+201D; every character is from the input or is ' or " |
| PackStrings.CleanStringByChar | utils/packs.mjs:89-94 | works character by character: U+2060 dropped, single typographic quotes become ', double become ", all else kept in order |
| PackStrings.CleanStringConcat | utils/packs.mjs:89-94 | cleanString distributes over concatenation |
| PackStrings.CleanStringFixpoint | utils/packs.mjs:89-94 | text without the five characters is unchanged |
| PackStrings.CleanStringIdempotent | utils/packs.mjs:89-94 | cleanString is idempotent |
| PackStrings.LowerCase | utils/packs.mjs:208 | lower-cases character by character, length kept |
| PackStrings.RemoveFirst | utils/packs.mjs:209 | a string pattern removes only the first occurrence: the input unchanged when the character is absent, else the input without that one position |
| PackStrings.FirstIndex | utils/packs.mjs:209 | the first occurrence: a position holding the character with none before it |
| PackStrings.CollapseSpaced | utils/packs.mjs:210 | the collapsed string is made of slug characters and spaces only, every space followed by a slug character or the end (which characters survive is WordsCollapse) |
| PackStrings.CollapseKeepsSlugChars | utils/packs.mjs:210 | collapsing keeps the slug characters, in order |
| PackStrings.TrimCollapsed | utils/packs.mjs:211 | trimming a single-spaced string leaves no space at either end and keeps it single-spaced |
| PackStrings.TrimKeepsSlugChars | utils/packs.mjs:211 | trimming keeps the slug characters, in order |
| PackStrings.SeparateSpaced | utils/packs.mjs:212 | on a single-spaced string, the last replace just turns each space into a hyphen |
| PackStrings.HyphenateKeepsSlugChars | utils/packs.mjs:212 | turning spaces into hyphens keeps the slug characters |
| PackStrings.PreparedIsLower | utils/packs.mjs:208-209 | after lower-casing and removing the apostrophe, every slug character is lower case |
| PackStrings.SlugifyShape | utils/packs.mjs:206-212 | a slug holds only lower-case letters, digits, the listed accented letters and '-'. It has no '-' at either end and never "--". Its letters and digits are exactly those of the lower-cased, apostrophe-stripped name, in order (where the hyphens go is Slugify) |
| PackStrings.PipelineShape | utils/packs.mjs:210-212 | the same shape for the last three steps, on any string whose slug characters are lower case |
| PackStrings.Words | utils/packs.mjs:210 | the words of a string, its maximal runs of slug characters in order, are each a non-empty run of slug characters |
| PackStrings.WordsCollapse | utils/packs.mjs:210 | collapsing the separator runs keeps the words |
| PackStrings.WordsTrim | utils/packs.mjs:211 | trimming keeps the words |
| PackStrings.SpacedIsJoin | utils/packs.mjs:210-211 | a single-spaced string with no space at either end is exactly its words joined by single spaces |
| PackStrings.TrimSpacedIsJoin | utils/packs.mjs:210-211 | a collapsed then trimmed string is its words joined by single spaces |
| PackStrings.HyphenateJoin | utils/packs.mjs:212 | turning the spaces of words joined by spaces into hyphens joins them by hyphens |
| PackStrings.SlugPipelineWords | utils/packs.mjs:210-212 | the last three steps turn any string into its words joined by single hyphens |
| PackStrings.Slugify | utils/packs.mjs:206-212 | the slug is the words (maximal runs of slug characters) of the lower-cased name with its first apostrophe removed, joined by single hyphens |
| PackStrings.SlugOfTwoWords | utils/packs.mjs:206-212 | the slug of "a b" is "a-b" |
| PackStrings.SlugifyOneWord | utils/packs.mjs:206-212 | the slug of "ab" is "ab" |
| PackEntries.StripFlags | utils/packs.mjs:65-70 | importSource and exportSource are gone. With clearSourceId an object `core` loses `sourceId`. Every other flag is unchanged |
| PackEntries.Sweep | utils/packs.mjs:75-77 | a flag is kept iff it is neither null nor without own keys, and kept flags are unchanged |
| PackEntries.CleanFlags | utils/packs.mjs:65-77 | the cleaned flags are clean and a subset of the input's keys (a missing object counts as {}); every flag other than importSource, exportSource and core is kept, unchanged, iff it is neither null nor without own keys |
| PackEntries.CleanStats | utils/packs.mjs:66-72 | `_stats` stays present iff it was; with clearSourceId compendiumSource is gone, otherwise kept; a truthy lastModifiedBy becomes "sacramentobuilder", a falsy or missing one is kept |
| PackEntries.CleanText | utils/packs.mjs:84-86 | a text field stays present iff it was, and a present one becomes its cleanString |
| PackEntries.CleanPackEntry | utils/packs.mjs:63-87 | ownership (if present) becomes exactly {default: ownership}; flags exist and are clean; with clearSourceId compendiumSource is gone; flags are exactly CleanFlags and `_stats` exactly CleanStats of the input; a truthy lastModifiedBy becomes "sacramentobuilder"; name, label and description become their cleanString; each embedded list keeps its presence, and its entries are the input's entries each cleaned by CleanEach: effects and items with (false, 0), pages with (true, −1); the whole tree is Scrubbed |
| PackEntries.CleanEach | utils/packs.mjs:79-81 | the list keeps its length, and element i of the result is element i of the input cleaned with the given options, which CleanPackEntry passes as (false, 0) for effects and items and (true, −1) for pages |
| PackEntries.EmptiedCoreSwept | utils/packs.mjs:67-77 | a `core` emptied by the sourceId deletion is removed by the sweep |
| PackEntries.ScrubbedFixpoint | utils/packs.mjs:63-87 | a scrubbed document is left unchanged by cleanPackEntry with the same options |
| PackEntries.CleanPackEntryIdempotent | utils/packs.mjs:63-87 | cleanPackEntry is idempotent |
| PackEntries.SelectFolders | utils/packs.mjs:111-113 | a directory entry is compiled iff it is a directory, and, when a pack name is given, iff it has that name |
| PackEntries.SelectFoldersAll | utils/packs.mjs:111-113 | without a pack name the compiled folders are exactly the directories of the listing, in listing order; plain files are skipped |
| PackEntries.SelectPacks | utils/packs.mjs:135 | a manifest pack is extracted iff no pack name is given or it has that name |
| PackEntries.SelectPacksAll | utils/packs.mjs:135 | without a pack name every pack is extracted, in order |
| PackEntries.TransformEntry | utils/packs.mjs:187-190 | with an entry name, a document is skipped iff its lower-cased name differs, and one without a name throws. A kept document is scrubbed with the defaults (true, 0) |
| PackEntries.TransformEntryIgnoresCase | utils/packs.mjs:188 | documents whose names agree up to case are kept or skipped together |
| PackEntries.TransformEntryScrubs | utils/packs.mjs:187-190 | a written document is Scrubbed and a fixpoint of cleanPackEntry |
| PackPaths.Register | utils/packs.mjs:156-165 | a folder document is recorded under its id with its slug and parent folder; otherwise a container item with slug, container and folder; otherwise nothing changes |
| PackPaths.Lookup | utils/packs.mjs:170 | `collection[id]`: the record iff the id is set and present |
| PackPaths.Ancestors | utils/packs.mjs:169-176 | the walk's names end with the start record's own name, and are empty iff there is no start record |
| PackPaths.AncestorsFuel | utils/packs.mjs:172-175 | the names do not depend on the step bound |
| PackPaths.ChainStep | utils/packs.mjs:172-175 | a record's path is its parent's path followed by its own name |
| PackPaths.ChainRoot | utils/packs.mjs:170-171 | a record with no parent has its own name as path |
| PackPaths.SelfParentNeverEnds | utils/packs.mjs:172-175 | a record that is its own parent makes the walk run forever |
| PackPaths.BuildPath | utils/packs.mjs:169-176 | the loop leaves the ancestor names, root first, followed by the entry's own name |
| PackPaths.FolderPathOf | utils/packs.mjs:177 | one step of the folder pass: the folder's buildPath path |
| PackPaths.AssignFolderPaths | utils/packs.mjs:177 | every folder gets its buildPath path, and no other id gets one |
| PackPaths.AssignContainerPaths | utils/packs.mjs:178-182 | every container gets its container chain, under its folder's path when that folder exists |
| PackPaths.ContainerPathOf | utils/packs.mjs:178-182 | one step of the container pass: the container chain, under its folder's path when that folder exists |
| PackPaths.DocFileName | utils/packs.mjs:194-196 | an ordinary document's file name is its slug, the words of its prepared name joined by hyphens, followed by ".yml" |
| PackPaths.ParentPath | utils/packs.mjs:195-196 | the container's path when the container exists; otherwise the folder's; otherwise the pack root |
| PackPaths.TransformName | utils/packs.mjs:191-197 | folder document → its folder path; else container item → its container path; else `ParentPath` plus `<slug>.yml` |
| PackPaths.LastSegment | utils/packs.mjs:192-196 | the file name is `_folder.yml`, else `_container.yml`, else `<slug>.yml`, by that precedence |
| PackPaths.DocFileNameIsNoMarker | utils/packs.mjs:194-196 | a slug file is never named `_folder.yml` or `_container.yml` |
| PackPaths.SlugFileIsNoMarker | utils/packs.mjs:194-196 | a name made of slug characters and hyphens, with `.yml` appended, is neither marker name |
| PackPaths.TransformNameKinds | utils/packs.mjs:192-196 | the file name is `_folder.yml` iff the document is a folder, and `_container.yml` iff it is a container item that is not a folder |
| PackPaths.ContainerBeatsFolder | utils/packs.mjs:195 | a document in a known container is filed under the container whatever its folder |
| UpdateManifest.Show | utils/update-manifest.js:39 | a missing version interpolates as "undefined" |
| UpdateManifest.Coalesce | utils/update-manifest.js:20-21 | `a ?? b` keeps `a` when present, else `b` |
| UpdateManifest.GetSystemVersion | utils/update-manifest.js:35-44 | no tag with a SHA → "<version>-<sha>"; a tag → the systemVersion option, SHA or not; neither → the version unchanged |
| UpdateManifest.NewManifestData | utils/update-manifest.js:18-22 | the version by getSystemVersion; manifest and download from the options when given, else kept |
| UpdateManifest.TaggedIgnoresSha | utils/update-manifest.js:40-41 | a tagged build's version does not depend on the SHA |
| UpdateManifest.TaggedIdempotent | utils/update-manifest.js:40-41 | running the script twice on a tagged build equals running it once |
| UpdateManifest.UntaggedAccumulates | utils/update-manifest.js:38-39 | running it twice untagged appends the SHA twice, so the version changes again |
| UpdateManifest.UntaggedKeepsPrefix | utils/update-manifest.js:38-39 | an untagged version starts with the current version followed by '-' |
| UpdateManifest.Manifest.Update | utils/update-manifest.js:18-29 | the three members become newManifestData of the manifest as read; every other member is unchanged |

## Left out

- Host lifecycle: `super.prepareData`, `super._preUpdate`, `prepareBaseData`, the async wait and the host's persistence are not modelled. The change set is a flat map from dotted path to number, and `getProperty` is a lookup.
- Actor.GuardChanges: a pending pain value of `null` (which JavaScript compares as ≤ 0) is not representable, because the change set maps to integers.
- Actor.ActorDocument.PrepareCharacterData: `abilities` and `attributes` are always present, and ability values are integers. A non-numeric value and the throw on a missing `attributes` are not modelled.
- Actor: `system.abilities` and `system.attributes` are always present in the model. The code throws a TypeError when either is missing (lines 44, 65, 78, 84, 159 and 172 read them without a check); these throws are not modelled.
- Actor.LevelShortcut and Actor.NdcShortcut: they require an `attributes` entry, which the system copy always holds in the model; the code throws without one.
- Actor.IsSpecial: only a boolean flag value is modelled; JavaScript would also accept any truthy value.
- Actor.SystemEntries and Actor.RollDataOf: the model's `system` record holds only abilities, attributes, health and pain, the members the rules read. The spread copy in the source also carries every other `system` member into the roll data, where an ability of the same name overwrites it. The key sets these members state are those of the model's record.
- Actor.RollDataOf: `deepClone` of an ability is a value copy, so aliasing between the roll data and the actor is not modelled.
- Everything in module/helpers/effects.mjs except the partition: DOM event handling and host calls. The `game.i18n.localize` labels are passed in as opaque strings.
- module/documents/item.mjs (chat cards, host notifications, ammunition updates), module/helpers/templates.mjs, module/helpers/config.mjs and utils/copy.mjs are not part of this model: they are host I/O, UI and file copying.
- In utils/packs.mjs, several things are not modelled: the yargs command line, `compilePack` and `extractPack` (foreign code that calls the modelled callbacks), file system access, `system.json` parsing and logging. The `cleanPacks` action only logs. The compile step is assumed to call `cleanPackEntry` with the document alone, that is, with the default options.
- PackStrings.LowerCase: `toLowerCase` is modelled for ASCII and the Latin-1 capitals only, not full Unicode case mapping. The regular expressions are modelled over an explicit characters class.
- PackEntries.CleanPackEntry: it is modelled on values, returning the scrubbed record rather than mutating it in place with `delete` and `forEach`. So aliasing between a document and its embedded lists is not modelled. `_stats` is reduced to its two touched members, and numbers inside flags are integers.
- PackPaths.Doc: a document always has a name. The code passes a missing name to `slugify` (lines 157, 160 and 194), which throws a TypeError; that throw is not modelled.
- PackEntries.Entry: a missing `effects`, `items` or `pages` is kept apart from an empty one, but cleanPackEntry treats both alike.
- PackPaths: paths are sequences of segments. `path.join` normalisation, and the rendering of a path as a string, are not modelled.
- PackPaths: two JavaScript quirks are only partly modelled.
  - Inherited keys matched by the `in` operator (such as `constructor`) are not modelled.
  - An undefined parent id looking up the key "undefined" is modelled as a missing parent.
- PackPaths.BuildPath: it requires an acyclic parent chain. On a cycle the code loops forever, and `SelfParentNeverEnds` shows one such input.
- UpdateManifest: reading and writing system.json, the console table, and the environment and yargs access are not modelled; the tag, SHA and options arrive as parameters. The options are strings, while yargs parses a numeric-looking value such as `--systemVersion 1.10` as the number 1.1, which would then be written as the version. Manifest members other than the three written are strings in the model.
