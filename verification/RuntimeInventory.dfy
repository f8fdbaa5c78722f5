/** The walk over an installed runtime directory, and what a runtime that verifies contains. */
module RuntimeInventory {
  import opened Texts

  /** One entry of a directory listing; `valid` is what the checks of the object itself say. */
  datatype Item = Item(name: string, isDirectory: bool, link: bool, valid: bool)

  /** A directory tree: the listing of each relative path, or nothing when it cannot be listed.
      The tree may be of any size, and need not be finite. */
  type Tree = string -> Option<seq<Item>>

  const MAX_OBJECTS: nat := 1024

  /** The relative path of an entry of the directory `parent`. */
  function Child(parent: string, name: string): string {
    if parent == "" then name else parent + "\\" + name
  }

  predicate IsDot(item: Item) { item.name == "." || item.name == ".." }

  /** `item` is an entry of the directory at `parent`, `depth` levels below the root. */
  ghost predicate InTree(tree: Tree, parent: string, item: Item, depth: nat)
    decreases depth
  {
    && tree(parent).Some? && item in tree(parent).value && !IsDot(item)
    && if depth == 0 then parent == ""
       else exists above: string, dir: Item ::
              InTree(tree, above, dir, depth - 1) && dir.isDirectory && parent == Child(above, dir.name)
  }

  /** A directory of the tree: the root, or an entry that is one. */
  ghost predicate IsDirectory(tree: Tree, path: string) {
    path == "" || exists above: string, dir: Item, depth: nat ::
      InTree(tree, above, dir, depth) && dir.isDirectory && path == Child(above, dir.name)
  }

  // ---- how many objects a tree holds -------------------------------------------------------------

  /** The way to an object: its place in each listing from the root on. */
  type Trail = seq<nat>

  function DirectoryAt(tree: Tree, trail: Trail): Option<string>
    decreases |trail|, 1
  {
    if trail == [] then Some("")
    else match EntryAt(tree, trail)
      case None => None
      case Some(x) => if x.1.isDirectory then Some(Child(x.0, x.1.name)) else None
  }

  /** The object a trail leads to, and the directory it is in. */
  function EntryAt(tree: Tree, trail: Trail): Option<(string, Item)>
    requires trail != []
    decreases |trail|, 0
  {
    var above, i := DirectoryAt(tree, trail[..|trail| - 1]), trail[|trail| - 1];
    if above.None? || tree(above.value).None? || i >= |tree(above.value).value| || IsDot(tree(above.value).value[i])
    then None else Some((above.value, tree(above.value).value[i]))
  }

  predicate IsObject(tree: Tree, trail: Trail) { trail != [] && EntryAt(tree, trail).Some? }

  ghost predicate AllObjects(tree: Tree, trails: set<Trail>) { forall t | t in trails :: IsObject(tree, t) }

  /** The tree holds more than `n` objects, directories included. */
  ghost predicate MoreThan(tree: Tree, n: nat) { exists trails: set<Trail> :: |trails| > n && AllObjects(tree, trails) }

  /** The entries of the first part of a listing. */
  function Entries(items: seq<Item>, n: nat): set<nat>
    requires n <= |items|
  {
    set i | 0 <= i < n && !IsDot(items[i])
  }

  lemma EntriesNext(items: seq<Item>, i: nat)
    requires i < |items|
    ensures |Entries(items, i + 1)| == |Entries(items, i)| + (if IsDot(items[i]) then 0 else 1)
  {
    hide IsDot;
    assert Entries(items, i + 1) == Entries(items, i) + (if IsDot(items[i]) then {} else {i});
  }

  lemma {:induction false} EntriesGrow(items: seq<Item>, i: nat, n: nat)
    requires i <= n <= |items|
    ensures |Entries(items, i)| <= |Entries(items, n)|
    decreases n - i
  {
    hide IsDot;
    if i < n {
      EntriesNext(items, i);
      EntriesGrow(items, i + 1, n);
    }
  }

  /** The places of the directories in the first part of a listing. */
  function Directories(items: seq<Item>, n: nat): (r: seq<nat>)
    requires n <= |items|
    ensures forall k | 0 <= k < |r| :: r[k] < n && !IsDot(items[r[k]]) && items[r[k]].isDirectory
    ensures forall i | 0 <= i < n && !IsDot(items[i]) && items[i].isDirectory :: i in r
    ensures forall j, k | 0 <= j < k < |r| :: r[j] < r[k]
  {
    if n == 0 then []
    else Directories(items, n - 1) + if !IsDot(items[n - 1]) && items[n - 1].isDirectory then [n - 1] else []
  }

  /** The trails below a directory, by the places in its listing. */
  function Below(trail: Trail, places: set<nat>): set<Trail> { set i | i in places :: trail + [i] }

  lemma {:induction false} BelowCount(trail: Trail, places: set<nat>)
    ensures |Below(trail, places)| == |places|
    decreases |places|
  {
    if places == {} {
      assert Below(trail, places) == {};
    } else {
      var i :| i in places;
      var others := places - {i};
      BelowCount(trail, others);
      assert Below(trail, places) == Below(trail, others) + {trail + [i]};
      assert trail + [i] !in Below(trail, others) by {
        forall j | j in others ensures trail + [j] != trail + [i] { assert (trail + [j])[|trail|] == j; }
      }
    }
  }

  lemma ObjectBelow(tree: Tree, trail: Trail, path: string, i: nat)
    requires DirectoryAt(tree, trail) == Some(path) && tree(path).Some?
    ensures IsObject(tree, trail + [i]) <==> i in Entries(tree(path).value, |tree(path).value|)
    ensures IsObject(tree, trail + [i]) && tree(path).value[i].isDirectory ==>
              DirectoryAt(tree, trail + [i]) == Some(Child(path, tree(path).value[i].name))
    ensures IsObject(tree, trail + [i]) && !tree(path).value[i].isDirectory ==> DirectoryAt(tree, trail + [i]).None?
  {
    hide IsDot, Child;
    var t := trail + [i];
    assert t[..|t| - 1] == trail && t[|t| - 1] == i;
  }

  /** How the walk keeps its count: `trails` are the ways to the directories still to do, `listed`
      to those that have been listed, and `seen` to all objects met. */
  ghost predicate Counted(tree: Tree, todo: seq<string>, trails: seq<Trail>, listed: set<Trail>, seen: set<Trail>) {
    && ToDo(tree, todo, trails, listed) && SeenBelow(tree, listed, seen) && Known(tree, trails, listed, seen)
  }

  ghost predicate ToDo(tree: Tree, todo: seq<string>, trails: seq<Trail>, listed: set<Trail>) {
    && |trails| == |todo|
    && (forall k | 0 <= k < |trails| :: DirectoryAt(tree, trails[k]) == Some(todo[k]) && trails[k] !in listed)
    && (forall j, k | 0 <= j < k < |trails| :: trails[j] != trails[k])
  }

  /** The objects seen are those of the directories that have been listed. */
  ghost predicate SeenBelow(tree: Tree, listed: set<Trail>, seen: set<Trail>) {
    forall t: Trail :: t in seen <==> IsObject(tree, t) && t[..|t| - 1] in listed
  }

  /** What listing one directory adds to the trails to do. */
  function TrailsBelow(trail: Trail, places: seq<nat>): (r: seq<Trail>)
    ensures |r| == |places| && forall k | 0 <= k < |r| :: r[k] == trail + [places[k]]
  {
    seq(|places|, k requires 0 <= k < |places| => trail + [places[k]])
  }

  /** Below a directory are the objects of its listing. */
  lemma BelowExact(tree: Tree, trail: Trail, path: string, t: Trail)
    requires DirectoryAt(tree, trail) == Some(path) && tree(path).Some?
    ensures t in Below(trail, Entries(tree(path).value, |tree(path).value|))
       <==> IsObject(tree, t) && t[..|t| - 1] == trail
  {
    hide DirectoryAt, Entries;
    var places := Entries(tree(path).value, |tree(path).value|);
    if t in Below(trail, places) {
      var i :| i in places && t == trail + [i];
      ObjectBelow(tree, trail, path, i);
      assert t[..|t| - 1] == trail;
    }
    if t != [] && t[..|t| - 1] == trail {
      assert t == trail + [t[|t| - 1]];
      ObjectBelow(tree, trail, path, t[|t| - 1]);
    }
  }

  lemma SeenNext(tree: Tree, listed: set<Trail>, seen: set<Trail>, trail: Trail, path: string)
    requires SeenBelow(tree, listed, seen) && trail !in listed
    requires DirectoryAt(tree, trail) == Some(path) && tree(path).Some?
    ensures var more := Below(trail, Entries(tree(path).value, |tree(path).value|));
            && SeenBelow(tree, listed + {trail}, seen + more)
            && |seen + more| == |seen| + |Entries(tree(path).value, |tree(path).value|)|
  {
    var places := Entries(tree(path).value, |tree(path).value|);
    var more := Below(trail, places);
    BelowCount(trail, places);
    forall t: Trail ensures t in more <==> IsObject(tree, t) && t[..|t| - 1] == trail {
      BelowExact(tree, trail, path, t);
    }
    SeenUnion(tree, listed, seen, trail, more);
  }

  lemma SeenUnion(tree: Tree, listed: set<Trail>, seen: set<Trail>, trail: Trail, more: set<Trail>)
    requires SeenBelow(tree, listed, seen) && trail !in listed
    requires forall t: Trail :: t in more <==> IsObject(tree, t) && t[..|t| - 1] == trail
    ensures SeenBelow(tree, listed + {trail}, seen + more) && |seen + more| == |seen| + |more|
  {
    hide EntryAt;
    assert seen !! more;
    assert |seen + more| == |seen| + |more|;
    forall t: Trail ensures t in seen + more <==> IsObject(tree, t) && t[..|t| - 1] in listed + {trail} {
      assert t in seen <==> IsObject(tree, t) && t[..|t| - 1] in listed;
    }
  }

  lemma ToDoNext(tree: Tree, todo: seq<string>, trails: seq<Trail>, listed: set<Trail>, trail: Trail, path: string,
                 pushed: seq<string>)
    requires ToDo(tree, todo + [path], trails + [trail], listed) && tree(path).Some?
    requires var items := tree(path).value; Pushed(path, items, |items|, pushed)
    requires forall t | t in trails || t in listed :: forall i: nat :: t != trail + [i]
    ensures ToDo(tree, todo + pushed, trails + TrailsBelow(trail, Directories(tree(path).value, |tree(path).value|)),
                 listed + {trail})
  {
    hide Child, IsDot, Directories, DirectoryAt, Entries;
    var items := tree(path).value;
    var places := Directories(items, |items|);
    var below := TrailsBelow(trail, places);
    var all := trails + [trail];
    assert forall k | 0 <= k < |trails| :: all[k] == trails[k] && (todo + [path])[k] == todo[k];
    assert all[|trails|] == trail && (todo + [path])[|todo|] == path;
    forall k | 0 <= k < |below| ensures DirectoryAt(tree, below[k]) == Some(pushed[k]) && below[k] !in listed + {trail} {
      EntryOf(items, places[k]);
      ObjectBelow(tree, trail, path, places[k]);
      assert |below[k]| != |trail|;
    }
    forall j, k | 0 <= j < k < |below| ensures below[j] != below[k] {
      assert below[j][|trail|] == places[j] && below[k][|trail|] == places[k];
    }
  }

  lemma EntryOf(items: seq<Item>, i: nat)
    requires i < |items| && !IsDot(items[i])
    ensures i in Entries(items, |items|)
  {}

  /** The directories that the loop over a listing has pushed. */
  predicate Pushed(path: string, items: seq<Item>, n: nat, pushed: seq<string>)
    requires n <= |items|
  {
    var places := Directories(items, n);
    |pushed| == |places| && forall k | 0 <= k < |places| :: pushed[k] == Child(path, items[places[k]].name)
  }

  lemma PushedNext(path: string, items: seq<Item>, i: nat, pushed: seq<string>)
    requires i < |items| && Pushed(path, items, i, pushed)
    ensures Pushed(path, items, i + 1,
                   if !IsDot(items[i]) && items[i].isDirectory then pushed + [Child(path, items[i].name)] else pushed)
  {
    hide IsDot, Child;
  }

  lemma CountedNext(tree: Tree, todo: seq<string>, trails: seq<Trail>, listed: set<Trail>, seen: set<Trail>,
                    trail: Trail, path: string, pushed: seq<string>)
    requires Counted(tree, todo + [path], trails + [trail], listed, seen) && tree(path).Some?
    requires var items := tree(path).value; Pushed(path, items, |items|, pushed)
    ensures var items := tree(path).value;
            Counted(tree, todo + pushed, trails + TrailsBelow(trail, Directories(items, |items|)), listed + {trail},
                    seen + Below(trail, Entries(items, |items|)))
  {
    hide Child, IsDot, Directories, DirectoryAt, Entries, IsObject, Below, Pushed, ToDo, SeenBelow, TrailsBelow;
    var items := tree(path).value;
    var more, below := Below(trail, Entries(items, |items|)), TrailsBelow(trail, Directories(items, |items|));
    LastToDo(tree, todo, trails, listed, trail, path);
    SeenNext(tree, listed, seen, trail, path);
    FreshBelow(tree, trails, listed, seen, trail);
    ToDoNext(tree, todo, trails, listed, trail, path, pushed);
    forall t | t in more && DirectoryAt(tree, t).Some? ensures t in below { DirectoriesBelow(tree, trail, path, t); }
    forall t | t in below ensures t in more { InBelow(tree, trail, path, t); }
    CountedUnion(tree, trails, listed, seen, trail, more, below);
  }

  /** The clauses of `Counted` that say which trails are known. */
  ghost predicate Known(tree: Tree, trails: seq<Trail>, listed: set<Trail>, seen: set<Trail>) {
    && ([] in listed || [] in trails)
    && (forall t | t in seen && DirectoryAt(tree, t).Some? :: t in listed || t in trails)
    && (forall t | t in trails || t in listed :: t == [] || t in seen)
  }

  lemma CountedUnion(tree: Tree, trails: seq<Trail>, listed: set<Trail>, seen: set<Trail>, trail: Trail,
                     more: set<Trail>, below: seq<Trail>)
    requires Known(tree, trails + [trail], listed, seen)
    requires forall t | t in more && DirectoryAt(tree, t).Some? :: t in below
    requires forall t | t in below :: t in more
    ensures Known(tree, trails + below, listed + {trail}, seen + more)
  {
    hide DirectoryAt;
    assert forall t :: t in trails + [trail] <==> t in trails || t == trail;
    assert forall t :: t in trails + below <==> t in trails || t in below;
  }

  /** No trail that is known leads to an object below a directory still to do. */
  lemma FreshBelow(tree: Tree, trails: seq<Trail>, listed: set<Trail>, seen: set<Trail>, trail: Trail)
    requires Known(tree, trails + [trail], listed, seen) && SeenBelow(tree, listed, seen) && trail !in listed
    ensures forall t | t in trails || t in listed :: forall i: nat :: t != trail + [i]
  {
    hide DirectoryAt, IsObject;
    assert forall t :: t in trails + [trail] <==> t in trails || t == trail;
    forall t, i: nat | t in trails || t in listed ensures t != trail + [i] {
      var child := trail + [i];
      assert child[..|child| - 1] == trail && child !in seen;
    }
  }

  lemma LastToDo(tree: Tree, todo: seq<string>, trails: seq<Trail>, listed: set<Trail>, trail: Trail, path: string)
    requires ToDo(tree, todo + [path], trails + [trail], listed)
    ensures DirectoryAt(tree, trail) == Some(path) && trail !in listed && trail !in trails
    ensures ToDo(tree, todo, trails, listed)
  {
    hide DirectoryAt;
    var all := trails + [trail];
    assert all[|trails|] == trail && (todo + [path])[|todo|] == path;
    assert forall k | 0 <= k < |trails| :: all[k] == trails[k] && (todo + [path])[k] == todo[k];
  }

  lemma DirectoriesBelow(tree: Tree, trail: Trail, path: string, t: Trail)
    requires DirectoryAt(tree, trail) == Some(path) && tree(path).Some?
    requires t in Below(trail, Entries(tree(path).value, |tree(path).value|)) && DirectoryAt(tree, t).Some?
    ensures t in TrailsBelow(trail, Directories(tree(path).value, |tree(path).value|))
  {
    hide Child, IsDot, DirectoryAt, IsObject;
    var items := tree(path).value;
    var places := Directories(items, |items|);
    var i :| i in Entries(items, |items|) && t == trail + [i];
    ObjectBelow(tree, trail, path, i);
    assert i in places;
    var k :| 0 <= k < |places| && places[k] == i;
    assert TrailsBelow(trail, places)[k] == t;
  }

  lemma InBelow(tree: Tree, trail: Trail, path: string, t: Trail)
    requires tree(path).Some? && t in TrailsBelow(trail, Directories(tree(path).value, |tree(path).value|))
    ensures t in Below(trail, Entries(tree(path).value, |tree(path).value|))
  {
    hide IsDot;
    var items := tree(path).value;
    var places := Directories(items, |items|);
    var k :| 0 <= k < |places| && TrailsBelow(trail, places)[k] == t;
    assert places[k] in Entries(items, |items|);
  }

  lemma DirectoryAbove(tree: Tree, trail: Trail)
    requires IsObject(tree, trail)
    ensures var above := trail[..|trail| - 1]; DirectoryAt(tree, above).Some? && (above != [] ==> IsObject(tree, above))
  {}

  /** When nothing is left to do, every object has been seen. */
  lemma {:induction false} SeenAll(tree: Tree, listed: set<Trail>, seen: set<Trail>, trail: Trail)
    requires Counted(tree, [], [], listed, seen) && IsObject(tree, trail)
    ensures trail in seen
    decreases |trail|
  {
    var above := trail[..|trail| - 1];
    DirectoryAbove(tree, trail);
    if above != [] { SeenAll(tree, listed, seen, above); }
  }

  lemma CountedWhole(tree: Tree, listed: set<Trail>, seen: set<Trail>, n: nat)
    requires Counted(tree, [], [], listed, seen) && |seen| <= n
    ensures !MoreThan(tree, n)
  {
    hide Counted, IsObject;
    forall trails: set<Trail> | AllObjects(tree, trails) ensures |trails| <= n {
      forall t | t in trails ensures t in seen { SeenAll(tree, listed, seen, t); }
      SubsetSize(trails, seen);
    }
  }

  lemma {:induction false} SubsetSize(a: set<Trail>, b: set<Trail>)
    requires a <= b
    ensures |a| <= |b|
    decreases |a|
  {
    if a != {} {
      var t :| t in a;
      SubsetSize(a - {t}, b - {t});
    }
  }

  lemma CountedTooMany(tree: Tree, todo: seq<string>, trails: seq<Trail>, listed: set<Trail>, seen: set<Trail>,
                       trail: Trail, path: string, n: nat)
    requires Counted(tree, todo + [path], trails + [trail], listed, seen) && tree(path).Some?
    requires |seen| + |Entries(tree(path).value, |tree(path).value|)| > n
    ensures MoreThan(tree, n)
  {
    hide DirectoryAt, Entries, IsObject, Below;
    LastToDo(tree, todo, trails, listed, trail, path);
    SeenNext(tree, listed, seen, trail, path);
    var all := seen + Below(trail, Entries(tree(path).value, |tree(path).value|));
    assert AllObjects(tree, all);
  }

  lemma CountedStart(tree: Tree)
    ensures Counted(tree, [""], [[]], {}, {})
  {}

  // ---- what is allowed ------------------------------------------------------------------------

  /** The proper prefixes of the path at its separators. */
  predicate IsPrefixDirectory(dir: string, path: string) {
    |dir| < |path| && path[|dir|] == '\\' && dir == path[..|dir|]
  }

  predicate AllowedFile(path: string, allowed: seq<string>) {
    exists i | 0 <= i < |allowed| :: Lower(path) == Lower(allowed[i])
  }

  predicate AllowedDirectory(path: string, allowed: seq<string>) {
    exists i | 0 <= i < |allowed| :: IsPrefixDirectory(Lower(path), Lower(allowed[i]))
  }

  /** An object that may be in the tree. */
  predicate AllowedItem(parent: string, item: Item, allowed: seq<string>) {
    && !item.link && item.valid
    && if item.isDirectory then AllowedDirectory(Child(parent, item.name), allowed)
       else AllowedFile(Child(parent, item.name), allowed)
  }

  /** The directories of one folded path, found separator by separator. */
  method PrefixDirectories(folded: string) returns (dirs: set<string>)
    ensures forall d :: d in dirs <==> IsPrefixDirectory(d, folded)
  {
    dirs := {};
    var slash := Find(folded, '\\', 0);
    while slash < |folded|
      invariant slash <= |folded| && (slash < |folded| ==> folded[slash] == '\\')
      invariant forall d :: d in dirs <==> IsPrefixDirectory(d, folded) && |d| < slash
      decreases |folded| - slash
    {
      dirs := dirs + {folded[..slash]};
      assert IsPrefixDirectory(folded[..slash], folded);
      slash := Find(folded, '\\', slash + 1);
    }
  }

  /** The two sets that the walk looks up. */
  method AllowedSets(allowed: seq<string>) returns (files: set<string>, directories: set<string>)
    ensures forall p :: Lower(p) in files <==> AllowedFile(p, allowed)
    ensures forall p :: Lower(p) in directories <==> AllowedDirectory(p, allowed)
  {
    hide Lower;
    files, directories := {}, {};
    for i := 0 to |allowed|
      invariant forall p: string :: p in files <==> exists k | 0 <= k < i :: p == Lower(allowed[k])
      invariant forall p: string :: p in directories <==> exists k | 0 <= k < i :: IsPrefixDirectory(p, Lower(allowed[k]))
    {
      var folded := Lower(allowed[i]);
      files := files + {folded};
      var more := PrefixDirectories(folded);
      directories := directories + more;
    }
  }

  // ---- the walk ---------------------------------------------------------------------------------

  /** Every object below the directories still to do, or already seen, is accounted for: the
      entries of a directory that is not on the list are allowed and its directories are listed or
      done. */
  ghost predicate Covered(tree: Tree, allowed: seq<string>, todo: seq<string>, done: set<string>) {
    && ("" in todo || "" in done)
    && forall p | p in done ::
         && tree(p).Some?
         && forall item | item in tree(p).value && !IsDot(item) ::
              AllowedItem(p, item, allowed) && (item.isDirectory ==> Child(p, item.name) in todo || Child(p, item.name) in done)
  }

  /** What one listing adds to the walk. */
  predicate Visited(relative: string, items: seq<Item>, allowed: seq<string>, pushed: seq<string>) {
    forall i | 0 <= i < |items| && !IsDot(items[i]) ::
      AllowedItem(relative, items[i], allowed) && (items[i].isDirectory ==> Child(relative, items[i].name) in pushed)
  }

  /** The loop over one listing. */
  method VisitDirectory(relative: string, items: seq<Item>, files: set<string>, directories: set<string>,
                        ghost allowed: seq<string>, before: nat)
    returns (ok: bool, pushed: seq<string>, visited: nat)
    requires forall p :: Lower(p) in files <==> AllowedFile(p, allowed)
    requires forall p :: Lower(p) in directories <==> AllowedDirectory(p, allowed)
    requires before <= MAX_OBJECTS
    ensures ok ==> visited <= MAX_OBJECTS && |pushed| <= visited - before
    ensures ok ==> visited == before + |Entries(items, |items|)| && Pushed(relative, items, |items|, pushed)
    ensures ok ==> Visited(relative, items, allowed, pushed)
    ensures forall d | d in pushed :: exists i | 0 <= i < |items| :: !IsDot(items[i]) && items[i].isDirectory && d == Child(relative, items[i].name)
    ensures !ok ==> MAX_OBJECTS < visited <= before + |Entries(items, |items|)|
                    || exists i | 0 <= i < |items| :: !IsDot(items[i]) && !AllowedItem(relative, items[i], allowed)
  {
    hide AllowedFile, AllowedDirectory, Lower, Child, Entries, Pushed;
    EntriesNone(relative, items);
    pushed, visited := [], before;
    for i := 0 to |items|
      invariant before <= visited <= MAX_OBJECTS && |pushed| <= visited - before
      invariant visited == before + |Entries(items, i)| && Pushed(relative, items, i, pushed)
      invariant Visited(relative, items[..i], allowed, pushed)
      invariant forall d | d in pushed :: exists k | 0 <= k < i :: !IsDot(items[k]) && items[k].isDirectory && d == Child(relative, items[k].name)
    {
      var item := items[i];
      VisitedNext(relative, items, i, allowed, pushed);
      EntriesNext(items, i);
      EntriesGrow(items, i + 1, |items|);
      PushedNext(relative, items, i, pushed);
      if IsDot(item) { continue; }
      var child := Child(relative, item.name);
      var folded := Lower(child);
      visited := visited + 1;
      if visited > MAX_OBJECTS || item.link
         || (if item.isDirectory then folded !in directories else folded !in files) || !item.valid {
        return false, pushed, visited;
      }
      if item.isDirectory { pushed := pushed + [child]; }
    }
    assert items[..|items|] == items;
    ok := true;
  }

  lemma EntriesNone(path: string, items: seq<Item>)
    ensures |Entries(items, 0)| == 0 && Pushed(path, items, 0, [])
  {
    assert Entries(items, 0) == {};
  }

  lemma VisitedNext(relative: string, items: seq<Item>, i: nat, allowed: seq<string>, pushed: seq<string>)
    requires i < |items| && Visited(relative, items[..i], allowed, pushed)
    ensures IsDot(items[i]) ==> Visited(relative, items[..i + 1], allowed, pushed)
    ensures AllowedItem(relative, items[i], allowed) ==>
            Visited(relative, items[..i + 1], allowed, if items[i].isDirectory then pushed + [Child(relative, items[i].name)] else pushed)
  {
    hide AllowedItem, IsDot, Child;
    var more := items[..i + 1];
    assert forall k | 0 <= k < i :: more[k] == items[..i][k];
    assert more[i] == items[i];
  }

  lemma CoveredNext(tree: Tree, allowed: seq<string>, todo: seq<string>, done: set<string>, pushed: seq<string>)
    requires todo != [] && Covered(tree, allowed, todo, done)
    requires var relative := todo[|todo| - 1];
             tree(relative).Some? && Visited(relative, tree(relative).value, allowed, pushed)
    ensures Covered(tree, allowed, todo[..|todo| - 1] + pushed, done + {todo[|todo| - 1]})
  {
    hide AllowedItem, IsDot, Child;
    var relative, front := todo[|todo| - 1], todo[..|todo| - 1];
    var next := front + pushed;
    assert todo == front + [relative];
    assert forall p :: p in todo ==> p in next || p == relative;
    assert forall p :: p in pushed ==> p in next;
  }

  /** When nothing is left to do, the whole tree is allowed. */
  lemma {:induction false} CoveredAll(tree: Tree, allowed: seq<string>, done: set<string>, parent: string, item: Item, depth: nat)
    requires Covered(tree, allowed, [], done) && InTree(tree, parent, item, depth)
    ensures parent in done && AllowedItem(parent, item, allowed)
    ensures item.isDirectory ==> Child(parent, item.name) in done
    decreases depth
  {
    hide AllowedItem, Child;
    if depth > 0 {
      var above: string, dir: Item :|
        InTree(tree, above, dir, depth - 1) && dir.isDirectory && parent == Child(above, dir.name);
      CoveredAll(tree, allowed, done, above, dir, depth - 1);
    }
  }

  /** Something in the tree that must not be there, or a directory of it that cannot be listed. */
  ghost predicate Faulty(tree: Tree, allowed: seq<string>) {
    || (exists parent: string, item: Item, depth: nat :: InTree(tree, parent, item, depth) && !AllowedItem(parent, item, allowed))
    || (exists path: string :: IsDirectory(tree, path) && tree(path).None?)
  }

  /** The object is a link, fails its own checks, is a file that is not listed, or is a directory that
      no listed file is under, up to case. */
  predicate Misplaced(parent: string, item: Item, allowed: seq<string>) {
    || item.link || !item.valid
    || (if item.isDirectory then !Above(Child(parent, item.name), allowed) else !Among(Child(parent, item.name), allowed))
  }

  ghost predicate Unlistable(tree: Tree) { exists path: string :: IsDirectory(tree, path) && tree(path).None? }

  ghost predicate HasMisplaced(tree: Tree, allowed: seq<string>) {
    exists parent: string, item: Item, depth: nat :: InTree(tree, parent, item, depth) && Misplaced(parent, item, allowed)
  }

  /** A tree is faulty exactly when a directory of it cannot be listed or an object of it is
      misplaced. */
  lemma FaultyExactly(tree: Tree, allowed: seq<string>)
    ensures Faulty(tree, allowed) <==> Unlistable(tree) || HasMisplaced(tree, allowed)
  {
    hide InTree, IsDirectory, AllowedItem, Misplaced;
    if Faulty(tree, allowed) && !Unlistable(tree) {
      var parent: string, item: Item, depth: nat :| InTree(tree, parent, item, depth) && !AllowedItem(parent, item, allowed);
      MisplacedExactly(parent, item, allowed);
    }
    if HasMisplaced(tree, allowed) {
      var parent: string, item: Item, depth: nat :| InTree(tree, parent, item, depth) && Misplaced(parent, item, allowed);
      MisplacedExactly(parent, item, allowed);
      assert !AllowedItem(parent, item, allowed);
    }
  }

  lemma MisplacedExactly(parent: string, item: Item, allowed: seq<string>)
    ensures AllowedItem(parent, item, allowed) <==> !Misplaced(parent, item, allowed)
  {
    hide Lower, Child, IsPrefixDirectory;
    AboveExactly(Child(parent, item.name), allowed);
  }

  predicate Among(path: string, allowed: seq<string>) { exists i | 0 <= i < |allowed| :: Lower(allowed[i]) == Lower(path) }

  /** A listed path begins with this one and a backslash. */
  predicate Above(path: string, allowed: seq<string>) {
    exists i | 0 <= i < |allowed| :: Lower(path) + "\\" <= Lower(allowed[i])
  }

  lemma AboveExactly(path: string, allowed: seq<string>)
    ensures AllowedDirectory(path, allowed) <==> Above(path, allowed)
  {
    hide Lower;
    forall i | 0 <= i < |allowed| ensures IsPrefixDirectory(Lower(path), Lower(allowed[i])) <==> Lower(path) + "\\" <= Lower(allowed[i]) {
      PrefixIs(Lower(path), Lower(allowed[i]));
    }
  }

  lemma PrefixIs(d: string, folded: string)
    ensures IsPrefixDirectory(d, folded) <==> d + "\\" <= folded
  {
    var n := |d|;
    if d + "\\" <= folded { assert folded[n] == (d + "\\")[n] && folded[..n] == d; }
    if n < |folded| && folded[..n] == d && folded[n] == '\\' { assert folded[..n + 1] == d + "\\"; }
  }

  /** Everything on the list is a directory of the tree. */
  ghost predicate AllDirectories(tree: Tree, todo: seq<string>) { forall p | p in todo :: IsDirectory(tree, p) }

  lemma EntryInTree(tree: Tree, path: string, item: Item) returns (depth: nat)
    requires IsDirectory(tree, path) && tree(path).Some? && item in tree(path).value && !IsDot(item)
    ensures InTree(tree, path, item, depth)
  {
    if path == "" {
      depth := 0;
    } else {
      var above: string, dir: Item, d: nat :|
        InTree(tree, above, dir, d) && dir.isDirectory && path == Child(above, dir.name);
      depth := d + 1;
    }
  }

  lemma PushedAreDirectories(tree: Tree, path: string, todo: seq<string>, pushed: seq<string>)
    requires IsDirectory(tree, path) && tree(path).Some? && AllDirectories(tree, todo)
    requires var items := tree(path).value;
             forall d | d in pushed :: exists i | 0 <= i < |items| :: !IsDot(items[i]) && items[i].isDirectory && d == Child(path, items[i].name)
    ensures AllDirectories(tree, todo + pushed)
  {
    hide InTree, Child;
    var items := tree(path).value;
    forall d | d in pushed ensures IsDirectory(tree, d) {
      var i :| 0 <= i < |items| && !IsDot(items[i]) && items[i].isDirectory && d == Child(path, items[i].name);
      var depth := EntryInTree(tree, path, items[i]);
    }
  }

  lemma BadEntry(tree: Tree, path: string, allowed: seq<string>)
    requires IsDirectory(tree, path) && tree(path).Some?
    requires var items := tree(path).value;
             exists i | 0 <= i < |items| :: !IsDot(items[i]) && !AllowedItem(path, items[i], allowed)
    ensures Faulty(tree, allowed)
  {
    hide InTree, AllowedItem;
    var items := tree(path).value;
    var i :| 0 <= i < |items| && !IsDot(items[i]) && !AllowedItem(path, items[i], allowed);
    var depth := EntryInTree(tree, path, items[i]);
  }

  /** The walk of the source: a worklist of directories and a count of objects, which alone makes
      it terminate, whatever the tree.  It accepts exactly a tree of at most 1024 objects in which
      everything is allowed and every directory can be listed. */
  method ValidateRuntimeInventory(tree: Tree, rootValid: bool, allowed: seq<string>) returns (ok: bool)
    ensures ok <==> rootValid && !Faulty(tree, allowed) && !MoreThan(tree, 1024)
  {
    hide Counted, Directories, Entries, Below, Pushed, MoreThan, Covered, InTree, IsDirectory, AllDirectories, Faulty, AllowedItem, AllowedFile, AllowedDirectory, Visited, Lower, Child, IsDot;
    var visited := 0;
    if !rootValid { return false; }
    CoveredStart(tree, allowed);
    var files, directories := AllowedSets(allowed);
    var todo := [""];
    ghost var done: set<string> := {};
    ghost var trails: seq<Trail>, listed: set<Trail>, seen: set<Trail> := [[]], {}, {};
    CountedStart(tree);
    while todo != []
      invariant visited == |seen| <= MAX_OBJECTS
      invariant |trails| == |todo| && Counted(tree, todo, trails, listed, seen)
      invariant Covered(tree, allowed, todo, done) && AllDirectories(tree, todo)
      decreases 2 * (MAX_OBJECTS - visited) + |todo|
    {
      var relative := todo[|todo| - 1];
      assert todo == todo[..|todo| - 1] + [relative];
      DirectoryTaken(tree, todo);
      todo := todo[..|todo| - 1];
      var listing := tree(relative);
      if listing.None? {
        Unlisted(tree, relative, allowed);
        return false;
      }
      ghost var trail, front := trails[|trails| - 1], trails[..|trails| - 1];
      assert trails == front + [trail];
      var within, pushed, count := VisitDirectory(relative, listing.value, files, directories, allowed, visited);
      if !within {
        if MAX_OBJECTS < count <= visited + |Entries(listing.value, |listing.value|)| {
          CountedTooMany(tree, todo, front, listed, seen, trail, relative, MAX_OBJECTS);
        } else {
          BadEntry(tree, relative, allowed);
        }
        return false;
      }
      CoveredNext(tree, allowed, todo + [relative], done, pushed);
      PushedAreDirectories(tree, relative, todo, pushed);
      CountedNext(tree, todo, front, listed, seen, trail, relative, pushed);
      CountedSizes(tree, front, listed, seen, todo, trail, relative);
      seen := seen + Below(trail, Entries(listing.value, |listing.value|));
      trails := front + TrailsBelow(trail, Directories(listing.value, |listing.value|));
      listed := listed + {trail};
      PushedSize(relative, listing.value, pushed);
      todo, visited := todo + pushed, count;
      done := done + {relative};
    }
    WholeTree(tree, allowed, done);
    CountedWhole(tree, listed, seen, MAX_OBJECTS);
    ok := true;
  }

  lemma CountedSizes(tree: Tree, trails: seq<Trail>, listed: set<Trail>, seen: set<Trail>, todo: seq<string>,
                     trail: Trail, path: string)
    requires Counted(tree, todo + [path], trails + [trail], listed, seen) && tree(path).Some?
    ensures var places := Entries(tree(path).value, |tree(path).value|);
            |seen + Below(trail, places)| == |seen| + |places|
  {
    hide DirectoryAt, Entries, IsObject, Below;
    LastToDo(tree, todo, trails, listed, trail, path);
    SeenNext(tree, listed, seen, trail, path);
  }

  lemma PushedSize(path: string, items: seq<Item>, pushed: seq<string>)
    requires Pushed(path, items, |items|, pushed)
    ensures |pushed| == |Directories(items, |items|)|
  {}

  lemma DirectoryTaken(tree: Tree, todo: seq<string>)
    requires todo != [] && AllDirectories(tree, todo)
    ensures IsDirectory(tree, todo[|todo| - 1]) && AllDirectories(tree, todo[..|todo| - 1])
  {
    hide IsDirectory;
    assert forall p | p in todo[..|todo| - 1] :: p in todo;
  }

  lemma Unlisted(tree: Tree, path: string, allowed: seq<string>)
    requires IsDirectory(tree, path) && tree(path).None?
    ensures Faulty(tree, allowed)
  {
    hide IsDirectory, InTree, AllowedItem;
  }

  lemma CoveredStart(tree: Tree, allowed: seq<string>)
    ensures Covered(tree, allowed, [""], {}) && AllDirectories(tree, [""])
  {}

  lemma WholeTree(tree: Tree, allowed: seq<string>, done: set<string>)
    requires Covered(tree, allowed, [], done)
    ensures !Faulty(tree, allowed)
  {
    hide AllowedItem, InTree, Child;
    forall parent: string, item: Item, depth: nat | InTree(tree, parent, item, depth)
      ensures AllowedItem(parent, item, allowed) && (item.isDirectory ==> Child(parent, item.name) in done)
    {
      CoveredAll(tree, allowed, done, parent, item, depth);
    }
  }
}
