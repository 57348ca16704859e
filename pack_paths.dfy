/**
 * Where the extract step of the compendium tooling (utils/packs.mjs) writes each document:
 * the folder and container records gathered in a first pass, the nested paths buildPath
 * computes by walking parent links, and the file name transformName chooses.
 *
 * A path is a sequence of segments; rendering it through `path.join` is not modelled.
 */
module PackPaths {
  import opened Wrappers
  import opened PackStrings

  type Id = string

  // ---------------------------------------------------------------------------------------
  // The first pass: folder and container records
  // ---------------------------------------------------------------------------------------

  /** A folder as recorded in the first pass: its slug and the id of its parent folder. */
  datatype FolderRec = FolderRec(name: string, folder: Option<Id>)

  /** A container item as recorded: its slug, the container holding it and its folder. */
  datatype ContainerRec = ContainerRec(name: string, container: Option<Id>, folder: Option<Id>)

  /** The two tables the first pass fills. */
  datatype Catalogue = Catalogue(folders: map<Id, FolderRec>, containers: map<Id, ContainerRec>)

  /** A document as the extraction callbacks see it. */
  datatype Doc = Doc(
    id: Id,
    key: string,
    docType: string,
    name: string,
    folder: Option<Id>,
    container: Option<Id>)

  /** The key prefix of folder documents. */
  const FolderKeyPrefix: string := "!folders"

  /**
   * The first-pass callback on one document: a folder is recorded under its id, else a
   * container item is; anything else leaves both tables as they were.
   */
  function Register(c: Catalogue, d: Doc): (r: Catalogue)
    ensures FolderKeyPrefix <= d.key ==>
              r.folders == c.folders[d.id := FolderRec(Slugify(d.name), d.folder)] && r.containers == c.containers
    ensures !(FolderKeyPrefix <= d.key) && d.docType == "container" ==>
              r.containers == c.containers[d.id := ContainerRec(Slugify(d.name), d.container, d.folder)]
              && r.folders == c.folders
    ensures !(FolderKeyPrefix <= d.key) && d.docType != "container" ==> r == c
  {
    if FolderKeyPrefix <= d.key then
      Catalogue(c.folders[d.id := FolderRec(Slugify(d.name), d.folder)], c.containers)
    else if d.docType == "container" then
      Catalogue(c.folders, c.containers[d.id := ContainerRec(Slugify(d.name), d.container, d.folder)])
    else c
  }

  // ---------------------------------------------------------------------------------------
  // buildPath
  // ---------------------------------------------------------------------------------------

  /** A record seen through one parent key: its name and the id that key holds. */
  datatype Link = Link(name: string, up: Option<Id>)

  /** The record an id names in a collection, if any. */
  function Lookup(coll: map<Id, Link>, up: Option<Id>): (r: Option<Link>)
    ensures r.Some? <==> up.Some? && up.value in coll
    ensures r.Some? ==> r.value == coll[up.value]
  {
    if up.Some? && up.value in coll then Some(coll[up.value]) else None
  }

  /** The walk up from `p` reaches a missing parent within `fuel` steps. */
  predicate Ends(coll: map<Id, Link>, p: Option<Link>, fuel: nat)
    decreases fuel
  {
    p.None? || (fuel > 0 && Ends(coll, Lookup(coll, p.value.up), fuel - 1))
  }

  /** The walk up from `p` stops: the parent chain has no cycle. */
  ghost predicate Acyclic(coll: map<Id, Link>, p: Option<Link>)
  {
    exists fuel: nat :: Ends(coll, p, fuel)
  }

  /** The names met walking up from `p`, root first, `p`'s own name last. */
  function Ancestors(coll: map<Id, Link>, p: Option<Link>, fuel: nat): (r: seq<string>)
    requires Ends(coll, p, fuel)
    ensures p.None? <==> r == []
    ensures p.Some? ==> r[|r| - 1] == p.value.name
    decreases fuel
  {
    if p.None? then [] else Ancestors(coll, Lookup(coll, p.value.up), fuel - 1) + [p.value.name]
  }

  /** The names do not depend on how much fuel the walk was given. */
  lemma {:induction false} AncestorsFuel(coll: map<Id, Link>, p: Option<Link>, n: nat, m: nat)
    requires Ends(coll, p, n) && Ends(coll, p, m)
    ensures Ancestors(coll, p, n) == Ancestors(coll, p, m)
    decreases n
  {
    if p.Some? {
      AncestorsFuel(coll, Lookup(coll, p.value.up), n - 1, m - 1);
    }
  }

  /** The chain of names from the root down to `p`. */
  ghost function Chain(coll: map<Id, Link>, p: Option<Link>): seq<string>
    requires Acyclic(coll, p)
  {
    var fuel: nat :| Ends(coll, p, fuel);
    Ancestors(coll, p, fuel)
  }

  /** A record's chain is its parent's chain followed by its own name. */
  lemma ChainStep(coll: map<Id, Link>, l: Link)
    requires Acyclic(coll, Some(l))
    ensures Acyclic(coll, Lookup(coll, l.up))
    ensures Chain(coll, Some(l)) == Chain(coll, Lookup(coll, l.up)) + [l.name]
  {
    var n: nat :| Ends(coll, Some(l), n);
    var up := Lookup(coll, l.up);
    assert Ends(coll, up, n - 1);
    var m: nat :| Ends(coll, up, m) && Chain(coll, up) == Ancestors(coll, up, m);
    AncestorsFuel(coll, up, n - 1, m);
    var k: nat :| Ends(coll, Some(l), k) && Chain(coll, Some(l)) == Ancestors(coll, Some(l), k);
    AncestorsFuel(coll, Some(l), n, k);
  }

  /** A record whose parent is missing is a root: its chain is its own name. */
  lemma ChainRoot(coll: map<Id, Link>, l: Link)
    requires Lookup(coll, l.up).None?
    ensures Acyclic(coll, Some(l))
    ensures Chain(coll, Some(l)) == [l.name]
  {
    assert Ends(coll, Some(l), 1);
    ChainStep(coll, l);
  }

  /** A record that is its own parent makes the walk run forever. */
  lemma SelfParentNeverEnds(coll: map<Id, Link>, id: Id)
    requires id in coll && coll[id].up == Some(id)
    ensures !Acyclic(coll, Some(coll[id]))
  {
    forall n: nat ensures !Ends(coll, Some(coll[id]), n) {
      SelfLoop(coll, id, n);
    }
  }

  lemma {:induction false} SelfLoop(coll: map<Id, Link>, id: Id, n: nat)
    requires id in coll && coll[id].up == Some(id)
    ensures !Ends(coll, Some(coll[id]), n)
  {
    if n > 0 {
      SelfLoop(coll, id, n - 1);
    }
  }

  /**
   * `buildPath(collection, entry, parentKey)`: starting from the entry's own name, prepend
   * the name of each parent in turn until a parent is missing. The source loops forever on a
   * cyclic chain, hence the precondition.
   */
  method BuildPath(coll: map<Id, Link>, entry: Link) returns (path: seq<string>)
    requires Acyclic(coll, Some(entry))
    ensures path == Chain(coll, Some(entry))
  {
    ChainStep(coll, entry);
    var parent := Lookup(coll, entry.up);
    path := [entry.name];
    ghost var fuel: nat :| Ends(coll, parent, fuel);
    AncestorsFuel(coll, parent, fuel, fuel);
    ghost var whole := Ancestors(coll, parent, fuel) + path;
    assert whole == Chain(coll, Some(entry)) by {
      var m: nat :| Ends(coll, parent, m) && Chain(coll, parent) == Ancestors(coll, parent, m);
      AncestorsFuel(coll, parent, fuel, m);
    }
    while parent.Some?
      invariant Ends(coll, parent, fuel)
      invariant Ancestors(coll, parent, fuel) + path == whole
      decreases fuel
    {
      path := [parent.value.name] + path;
      parent := Lookup(coll, parent.value.up);
      fuel := fuel - 1;
    }
  }

  // ---------------------------------------------------------------------------------------
  // Paths of all folders and containers
  // ---------------------------------------------------------------------------------------

  /** The folder table seen through the key `folder`. */
  function FolderLinks(folders: map<Id, FolderRec>): (r: map<Id, Link>)
    ensures r.Keys == folders.Keys
    ensures forall id :: id in r ==> r[id] == Link(folders[id].name, folders[id].folder)
  {
    map id | id in folders :: Link(folders[id].name, folders[id].folder)
  }

  /** The container table seen through the key `container`. */
  function ContainerLinks(containers: map<Id, ContainerRec>): (r: map<Id, Link>)
    ensures r.Keys == containers.Keys
    ensures forall id :: id in r ==> r[id] == Link(containers[id].name, containers[id].container)
  {
    map id | id in containers :: Link(containers[id].name, containers[id].container)
  }

  /** Every walk through this table stops. */
  ghost predicate AllAcyclic(coll: map<Id, Link>)
  {
    forall id :: id in coll ==> Acyclic(coll, Some(coll[id]))
  }

  /** The path buildPath gives a folder. */
  ghost function FolderPath(folders: map<Id, FolderRec>, id: Id): seq<string>
    requires id in folders && AllAcyclic(FolderLinks(folders))
  {
    Chain(FolderLinks(folders), Some(FolderLinks(folders)[id]))
  }

  /** The path of a container: its own chain of containers, under its folder's path if that folder exists. */
  ghost function ContainerPath(folders: map<Id, FolderRec>, containers: map<Id, ContainerRec>, id: Id): seq<string>
    requires id in containers && AllAcyclic(FolderLinks(folders)) && AllAcyclic(ContainerLinks(containers))
  {
    var own := Chain(ContainerLinks(containers), Some(ContainerLinks(containers)[id]));
    var f := containers[id].folder;
    if f.Some? && f.value in folders then FolderPath(folders, f.value) + own else own
  }

  /** One step of the first pass: a folder's chain of folders. */
  method FolderPathOf(folders: map<Id, FolderRec>, id: Id) returns (p: seq<string>)
    requires id in folders && AllAcyclic(FolderLinks(folders))
    ensures p == FolderPath(folders, id)
  {
    var fl := FolderLinks(folders);
    p := BuildPath(fl, fl[id]);
  }

  /** The first `forEach` pass: every folder gets its path. */
  method AssignFolderPaths(folders: map<Id, FolderRec>) returns (folderPaths: map<Id, seq<string>>)
    requires AllAcyclic(FolderLinks(folders))
    ensures folderPaths.Keys == folders.Keys
    ensures forall id :: id in folderPaths ==> folderPaths[id] == FolderPath(folders, id)
  {
    folderPaths := map[];
    var todo := folders.Keys;
    while todo != {}
      invariant todo <= folders.Keys
      invariant folderPaths.Keys == folders.Keys - todo
      invariant forall id :: id in folderPaths ==> folderPaths[id] == FolderPath(folders, id)
      decreases |todo|
    {
      var id :| id in todo;
      var p := FolderPathOf(folders, id);
      folderPaths := folderPaths[id := p];
      todo := todo - {id};
    }
  }

  /** One step of the second pass: a container's chain, under its folder's path when that folder exists. */
  method ContainerPathOf(folders: map<Id, FolderRec>, folderPaths: map<Id, seq<string>>, containers: map<Id, ContainerRec>, id: Id)
    returns (p: seq<string>)
    requires id in containers
    requires AllAcyclic(FolderLinks(folders)) && AllAcyclic(ContainerLinks(containers))
    requires folderPaths.Keys == folders.Keys
    requires forall id :: id in folderPaths ==> folderPaths[id] == FolderPath(folders, id)
    ensures p == ContainerPath(folders, containers, id)
  {
    var cl := ContainerLinks(containers);
    p := BuildPath(cl, cl[id]);
    var f := containers[id].folder;
    if f.Some? && f.value in folders {
      p := folderPaths[f.value] + p;
    }
  }

  /**
   * The second `forEach` pass: every container gets its chain of containers, put under the
   * path of its folder when that folder exists.
   */
  method AssignContainerPaths(folders: map<Id, FolderRec>, folderPaths: map<Id, seq<string>>, containers: map<Id, ContainerRec>)
    returns (containerPaths: map<Id, seq<string>>)
    requires AllAcyclic(FolderLinks(folders)) && AllAcyclic(ContainerLinks(containers))
    requires folderPaths.Keys == folders.Keys
    requires forall id :: id in folderPaths ==> folderPaths[id] == FolderPath(folders, id)
    ensures containerPaths.Keys == containers.Keys
    ensures forall id :: id in containerPaths ==> containerPaths[id] == ContainerPath(folders, containers, id)
  {
    containerPaths := map[];
    var todo := containers.Keys;
    while todo != {}
      invariant todo <= containers.Keys
      invariant containerPaths.Keys == containers.Keys - todo
      invariant forall id :: id in containerPaths ==> containerPaths[id] == ContainerPath(folders, containers, id)
      decreases |todo|
    {
      var id :| id in todo;
      var p := ContainerPathOf(folders, folderPaths, containers, id);
      containerPaths := containerPaths[id := p];
      todo := todo - {id};
    }
  }

  // ---------------------------------------------------------------------------------------
  // transformName
  // ---------------------------------------------------------------------------------------

  const FolderMarker: string := "_folder.yml"
  const ContainerMarker: string := "_container.yml"

  /** The file name of an ordinary document: its slug with the YAML extension. */
  function DocFileName(name: string): (r: string)
    ensures r == Join(Words(Prepared(name)), '-') + ".yml"
  {
    Slugify(name) + ".yml"
  }

  /** The directory of an ordinary document: its container's path, else its folder's, else the pack root. */
  function ParentPath(d: Doc, folderPaths: map<Id, seq<string>>, containerPaths: map<Id, seq<string>>): (r: seq<string>)
    ensures d.container.Some? && d.container.value in containerPaths ==> r == containerPaths[d.container.value]
    ensures !(d.container.Some? && d.container.value in containerPaths) && d.folder.Some? && d.folder.value in folderPaths ==>
              r == folderPaths[d.folder.value]
    ensures !(d.container.Some? && d.container.value in containerPaths) && !(d.folder.Some? && d.folder.value in folderPaths) ==>
              r == []
  {
    if d.container.Some? && d.container.value in containerPaths then containerPaths[d.container.value]
    else if d.folder.Some? && d.folder.value in folderPaths then folderPaths[d.folder.value]
    else []
  }

  /**
   * `transformName(entry)`: a folder document becomes the marker file inside its own path, a
   * container item the container marker inside its path, and any other document its slug
   * file inside its container's path, else its folder's, else the pack root.
   */
  function TransformName(d: Doc, folderPaths: map<Id, seq<string>>, containerPaths: map<Id, seq<string>>): (r: seq<string>)
    ensures r != []
    ensures d.id in folderPaths ==> r[..|r| - 1] == folderPaths[d.id]
    ensures d.id !in folderPaths && d.id in containerPaths ==> r[..|r| - 1] == containerPaths[d.id]
    ensures d.id !in folderPaths && d.id !in containerPaths ==>
              r[..|r| - 1] == ParentPath(d, folderPaths, containerPaths) && r[|r| - 1] == DocFileName(d.name)
  {
    if d.id in folderPaths then folderPaths[d.id] + [FolderMarker]
    else if d.id in containerPaths then containerPaths[d.id] + [ContainerMarker]
    else ParentPath(d, folderPaths, containerPaths) + [DocFileName(d.name)]
  }

  /** A slug file is never named like a marker: slugs contain no underscore. */
  lemma DocFileNameIsNoMarker(name: string)
    ensures DocFileName(name) != FolderMarker && DocFileName(name) != ContainerMarker
  {
    SlugifyShape(name);
    SlugFileIsNoMarker(Slugify(name));
  }

  /** A string of slug characters and hyphens, with the extension, is not a marker name. */
  lemma SlugFileIsNoMarker(slug: string)
    requires forall i :: 0 <= i < |slug| ==> IsLowerSlugChar(slug[i]) || slug[i] == '-'
    ensures slug + ".yml" != FolderMarker && slug + ".yml" != ContainerMarker
  {
    var file := slug + ".yml";
    if slug != [] {
      assert file[0] == slug[0];
    } else {
      assert file[0] == '.';
    }
    assert FolderMarker[0] == '_' && ContainerMarker[0] == '_';
  }

  /**
   * The last segment tells the three kinds apart: it is the folder marker exactly for folder
   * documents, and the container marker exactly for container items that are not folders.
   */
  lemma TransformNameKinds(d: Doc, folderPaths: map<Id, seq<string>>, containerPaths: map<Id, seq<string>>)
    ensures Last(TransformName(d, folderPaths, containerPaths)) == FolderMarker <==> d.id in folderPaths
    ensures Last(TransformName(d, folderPaths, containerPaths)) == ContainerMarker <==>
              d.id !in folderPaths && d.id in containerPaths
  {
    LastSegment(d, folderPaths, containerPaths);
    MarkersDiffer();
    DocFileNameIsNoMarker(d.name);
  }

  /** The file name transformName picks for each kind of document. */
  lemma LastSegment(d: Doc, folderPaths: map<Id, seq<string>>, containerPaths: map<Id, seq<string>>)
    ensures Last(TransformName(d, folderPaths, containerPaths))
         == if d.id in folderPaths then FolderMarker
            else if d.id in containerPaths then ContainerMarker
            else DocFileName(d.name)
  {
  }

  lemma MarkersDiffer()
    ensures FolderMarker != ContainerMarker
  {
    assert FolderMarker[1] != ContainerMarker[1];
  }

  /** The last segment of a path: the file name. */
  function Last(path: seq<string>): string
    requires path != []
  {
    path[|path| - 1]
  }

  /** A document in a container is filed under the container, whatever its folder says. */
  lemma ContainerBeatsFolder(d: Doc, folderPaths: map<Id, seq<string>>, containerPaths: map<Id, seq<string>>)
    requires d.id !in folderPaths && d.id !in containerPaths
    requires d.container.Some? && d.container.value in containerPaths
    ensures TransformName(d, folderPaths, containerPaths) == containerPaths[d.container.value] + [DocFileName(d.name)]
  {
  }
}
