/**
 Module preloads: the depth-first walk over a build manifest, which may be
 cyclic, incomplete or malformed in places.
 */
module Preloads {
  import opened Wrappers
  import opened Sequences

  /** An entry of an imports list; anything but a string is skipped. */
  datatype Import = Key(key: string) | NotAString

  datatype Imports = NotAList | List(items: seq<Import>)

  /** A manifest value; `file` is the stripped text of its file attribute. */
  datatype Node = NotAnObject | Object(file: string, imports: Imports)

  type Manifest = map<string, Node>

  const ENTRY: string := "index.html"

  /** The import items of a key, empty for a missing or malformed node. */
  function ItemsOf(m: Manifest, key: string): seq<Import> {
    if key in m && m[key].Object? && m[key].imports.List? then m[key].imports.items else []
  }

  function Keys(items: seq<Import>): seq<string> {
    if items == [] then []
    else (if items[0].Key? then [items[0].key] else []) + Keys(items[1..])
  }

  function ImportsOf(m: Manifest, key: string): seq<string> {
    Keys(ItemsOf(m, key))
  }

  function FileOf(m: Manifest, key: string): seq<string> {
    if key in m && m[key].Object? && m[key].file != "" then [m[key].file] else []
  }

  function FilesOf(m: Manifest, keys: seq<string>): seq<string> {
    if keys == [] then [] else FileOf(m, keys[0]) + FilesOf(m, keys[1..])
  }

  function Set(keys: seq<string>): set<string> {
    set k | k in keys
  }

  /** Every key that is imported anywhere: the walk can go nowhere else. */
  function Universe(m: Manifest): set<string> {
    set key, k | key in m && k in ImportsOf(m, key) :: k
  }

  lemma ImportsInUniverse(m: Manifest, key: string)
    ensures Set(ImportsOf(m, key)) <= Universe(m)
  {
    forall k | k in ImportsOf(m, key)
      ensures k in Universe(m)
    {
      assert key in m;
    }
  }

  lemma SmallerWithout(u: set<string>, seen: set<string>, seen': set<string>, k: string)
    requires k in u && k !in seen && seen + {k} <= seen'
    ensures |u - seen'| < |u - seen|
  {
    assert u - seen' <= (u - seen) - {k};
    SubsetSize(u - seen', (u - seen) - {k});
  }

  // ------------------------------------------------------------------ the walk

  /** Keys newly visited, in order, by walking the list `todo` with `seen` already visited. */
  function Visit(m: Manifest, todo: seq<string>, seen: set<string>): (order: seq<string>)
    requires Set(todo) <= Universe(m)
    decreases |Universe(m) - seen|, |todo|
  {
    if todo == [] then []
    else if todo[0] in seen then
      assert Set(todo[1..]) <= Set(todo);
      Visit(m, todo[1..], seen)
    else
      assert Set(todo[1..]) <= Set(todo);
      assert todo[0] in Set(todo);
      SmallerWithout(Universe(m), seen, seen + {todo[0]}, todo[0]);
      ImportsInUniverse(m, todo[0]);
      var below := Visit(m, ImportsOf(m, todo[0]), seen + {todo[0]});
      SmallerWithout(Universe(m), seen, seen + {todo[0]} + Set(below), todo[0]);
      [todo[0]] + below + Visit(m, todo[1..], seen + {todo[0]} + Set(below))
  }

  /** State of the walk after the subtree of `key`. */
  function SeenBelow(m: Manifest, key: string, seen: set<string>): set<string> {
    ImportsInUniverse(m, key);
    seen + {key} + Set(Visit(m, ImportsOf(m, key), seen + {key}))
  }

  /** One unfolding of Visit, with the facts its recursive calls need. */
  lemma VisitNew(m: Manifest, todo: seq<string>, seen: set<string>)
    requires todo != [] && Set(todo) <= Universe(m) && todo[0] !in seen
    ensures Set(ImportsOf(m, todo[0])) <= Universe(m) && Set(todo[1..]) <= Universe(m)
    ensures |Universe(m) - (seen + {todo[0]})| < |Universe(m) - seen|
    ensures |Universe(m) - SeenBelow(m, todo[0], seen)| < |Universe(m) - seen|
    ensures Visit(m, todo, seen)
            == [todo[0]] + Visit(m, ImportsOf(m, todo[0]), seen + {todo[0]})
               + Visit(m, todo[1..], SeenBelow(m, todo[0], seen))
  {
    assert todo[0] in Set(todo);
    assert Set(todo[1..]) <= Set(todo);
    ImportsInUniverse(m, todo[0]);
    SmallerWithout(Universe(m), seen, seen + {todo[0]}, todo[0]);
    SmallerWithout(Universe(m), seen, SeenBelow(m, todo[0], seen), todo[0]);
  }

  lemma TailWithin(m: Manifest, todo: seq<string>)
    requires todo != [] && Set(todo) <= Universe(m)
    ensures Set(todo[1..]) <= Universe(m) && Set(todo) == {todo[0]} + Set(todo[1..])
  {
    assert todo == [todo[0]] + todo[1..];
  }

  lemma SetOfParts(key: string, a: seq<string>, b: seq<string>)
    ensures Set([key] + a + b) == {key} + Set(a) + Set(b)
  {
  }

  lemma RegroupSets(seen: set<string>, key: string, a: set<string>, b: set<string>)
    ensures seen + ({key} + a + b) == (seen + {key} + a) + b
  {
  }

  lemma Regroup(key: string, a: seq<string>, b: seq<string>, c: seq<string>)
    ensures [key] + a + (b + c) == ([key] + a + b) + c
  {
  }

  lemma TailOfAppend<T>(a: seq<T>, b: seq<T>)
    requires a != []
    ensures (a + b)[0] == a[0] && (a + b)[1..] == a[1..] + b
  {
  }

  lemma Prepend(key: string, a: seq<string>, b: seq<string>)
    ensures [key] + (a + b) == [key] + a + b
  {
  }

  lemma SetAppend(a: seq<string>, b: seq<string>)
    ensures Set(a + b) == Set(a) + Set(b)
  {
  }

  lemma {:induction false} FilesAppend(m: Manifest, a: seq<string>, b: seq<string>)
    ensures FilesOf(m, a + b) == FilesOf(m, a) + FilesOf(m, b)
  {
    if a == [] {
      assert a + b == b;
    } else {
      TailOfAppend(a, b);
      FilesAppend(m, a[1..], b);
    }
  }

  lemma {:induction false} KeysAppend(a: seq<Import>, b: seq<Import>)
    ensures Keys(a + b) == Keys(a) + Keys(b)
  {
    if a == [] {
      assert a + b == b;
    } else {
      TailOfAppend(a, b);
      KeysAppend(a[1..], b);
    }
  }

  lemma {:induction false} VisitAppend(m: Manifest, a: seq<string>, b: seq<string>, seen: set<string>)
    requires Set(a) <= Universe(m) && Set(b) <= Universe(m)
    ensures Set(a + b) <= Universe(m)
    ensures Visit(m, a + b, seen) == Visit(m, a, seen) + Visit(m, b, seen + Set(Visit(m, a, seen)))
    decreases |Universe(m) - seen|, |a|
  {
    SetAppend(a, b);
    if a == [] {
      assert a + b == b;
      assert seen + Set([]) == seen;
    } else if a[0] in seen {
      TailOfAppend(a, b);
      TailWithin(m, a);
      VisitAppend(m, a[1..], b, seen);
    } else {
      VisitAppendNew(m, a, b, seen);
    }
  }

  lemma {:induction false} VisitAppendNew(m: Manifest, a: seq<string>, b: seq<string>, seen: set<string>)
    requires a != [] && a[0] !in seen
    requires Set(a) <= Universe(m) && Set(b) <= Universe(m) && Set(a + b) <= Universe(m)
    ensures Visit(m, a + b, seen) == Visit(m, a, seen) + Visit(m, b, seen + Set(Visit(m, a, seen)))
    decreases |Universe(m) - seen|, |a|, 0
  {
    var k, tail := a[0], a[1..];
    VisitNew(m, a, seen);
    VisitNew(m, a + b, seen);
    TailOfAppend(a, b);
    var below := Visit(m, ImportsOf(m, k), seen + {k});
    var seen' := SeenBelow(m, k, seen);
    var rest := Visit(m, tail, seen');
    VisitAppend(m, tail, b, seen');
    SeenAfter(m, a, seen, k, below, rest);
    Regroup(k, below, rest, Visit(m, b, seen' + Set(rest)));
  }

  lemma SeenAfter(m: Manifest, a: seq<string>, seen: set<string>, k: string, below: seq<string>, rest: seq<string>)
    requires Set(a) <= Universe(m) && Visit(m, a, seen) == [k] + below + rest
    ensures seen + Set(Visit(m, a, seen)) == (seen + {k} + Set(below)) + Set(rest)
  {
    SetOfParts(k, below, rest);
    RegroupSets(seen, k, Set(below), Set(rest));
  }

  // ---------------------------------------------------- preorder, by a worklist

  /** Reference order: take the first key of the list; if new, put its imports in front. */
  function Preorder(m: Manifest, list: seq<string>, seen: set<string>): seq<string>
    requires Set(list) <= Universe(m)
    decreases |Universe(m) - seen|, |list|
  {
    if list == [] then []
    else
      assert Set(list[1..]) <= Set(list);
      if list[0] in seen then Preorder(m, list[1..], seen)
      else
        assert list[0] in Set(list);
        SmallerWithout(Universe(m), seen, seen + {list[0]}, list[0]);
        ImportsInUniverse(m, list[0]);
        SetAppend(ImportsOf(m, list[0]), list[1..]);
        [list[0]] + Preorder(m, ImportsOf(m, list[0]) + list[1..], seen + {list[0]})
  }

  lemma PreorderNew(m: Manifest, list: seq<string>, seen: set<string>)
    requires list != [] && Set(list) <= Universe(m) && list[0] !in seen
    ensures Set(ImportsOf(m, list[0]) + list[1..]) <= Universe(m)
    ensures Preorder(m, list, seen) == [list[0]] + Preorder(m, ImportsOf(m, list[0]) + list[1..], seen + {list[0]})
  {
    TailWithin(m, list);
    ImportsInUniverse(m, list[0]);
    SetAppend(ImportsOf(m, list[0]), list[1..]);
  }

  lemma {:induction false} VisitIsPreorderOfPrefix(m: Manifest, a: seq<string>, rest: seq<string>, seen: set<string>)
    requires Set(a) <= Universe(m) && Set(rest) <= Universe(m)
    ensures Set(a + rest) <= Universe(m)
    ensures Preorder(m, a + rest, seen) == Visit(m, a, seen) + Preorder(m, rest, seen + Set(Visit(m, a, seen)))
    decreases |Universe(m) - seen|, |a|
  {
    SetAppend(a, rest);
    if a == [] {
      assert a + rest == rest;
      assert seen + Set([]) == seen;
    } else if a[0] in seen {
      TailOfAppend(a, rest);
      TailWithin(m, a);
      VisitIsPreorderOfPrefix(m, a[1..], rest, seen);
    } else {
      VisitIsPreorderNew(m, a, rest, seen);
    }
  }

  lemma {:induction false} VisitIsPreorderNew(m: Manifest, a: seq<string>, rest: seq<string>, seen: set<string>)
    requires a != [] && a[0] !in seen
    requires Set(a) <= Universe(m) && Set(rest) <= Universe(m) && Set(a + rest) <= Universe(m)
    ensures Preorder(m, a + rest, seen) == Visit(m, a, seen) + Preorder(m, rest, seen + Set(Visit(m, a, seen)))
    decreases |Universe(m) - seen|, |a|, 0
  {
    var k, tail := a[0], a[1..];
    VisitNew(m, a, seen);
    PreorderNew(m, a + rest, seen);
    TailOfAppend(a, rest);
    TailWithin(m, a + rest);
    var imports := ImportsOf(m, k);
    VisitIsPreorderOfPrefix(m, imports, tail + rest, seen + {k});
    var below := Visit(m, imports, seen + {k});
    var seen' := SeenBelow(m, k, seen);
    VisitIsPreorderOfPrefix(m, tail, rest, seen');
    var later := Visit(m, tail, seen');
    SeenAfter(m, a, seen, k, below, later);
    var final := Preorder(m, rest, seen' + Set(later));
    Regroup(k, below, later, final);
    Prepend(k, below, later + final);
  }

  lemma VisitIsPreorder(m: Manifest, todo: seq<string>, seen: set<string>)
    requires Set(todo) <= Universe(m)
    ensures Visit(m, todo, seen) == Preorder(m, todo, seen)
  {
    VisitIsPreorderOfPrefix(m, todo, [], seen);
    assert todo + [] == todo;
  }

  // -------------------------------------------------------- what gets visited

  /** Every key of the order has its imports in `closed`. */
  predicate ImportsWithin(m: Manifest, order: seq<string>, closed: set<string>) {
    forall k :: k in order ==> Set(ImportsOf(m, k)) <= closed
  }

  /** Fresh keys only, each once, and nothing left open behind the walk. */
  lemma {:induction false} VisitProperties(m: Manifest, todo: seq<string>, seen: set<string>)
    requires Set(todo) <= Universe(m)
    ensures WalkOk(m, todo, seen, Visit(m, todo, seen))
    decreases |Universe(m) - seen|, |todo|
  {
    if todo != [] {
      TailWithin(m, todo);
      if todo[0] in seen {
        VisitProperties(m, todo[1..], seen);
      } else {
        VisitNew(m, todo, seen);
        VisitProperties(m, ImportsOf(m, todo[0]), seen + {todo[0]});
        VisitProperties(m, todo[1..], SeenBelow(m, todo[0], seen));
        CombineProperties(m, todo, seen,
                          Visit(m, ImportsOf(m, todo[0]), seen + {todo[0]}),
                          Visit(m, todo[1..], SeenBelow(m, todo[0], seen)));
      }
    }
  }

  predicate WalkOk(m: Manifest, todo: seq<string>, seen: set<string>, order: seq<string>) {
    && Set(order) !! seen
    && Distinct(order)
    && Set(todo) <= seen + Set(order)
    && ImportsWithin(m, order, seen + Set(order))
  }

  lemma CombineProperties(m: Manifest, todo: seq<string>, seen: set<string>, below: seq<string>, later: seq<string>)
    requires todo != [] && todo[0] !in seen
    requires WalkOk(m, ImportsOf(m, todo[0]), seen + {todo[0]}, below)
    requires WalkOk(m, todo[1..], seen + {todo[0]} + Set(below), later)
    ensures WalkOk(m, todo, seen, [todo[0]] + below + later)
  {
    var k := todo[0];
    var order := [k] + below + later;
    SetOfParts(k, below, later);
    DistinctParts(k, below, later);
    assert Set(todo) == {k} + Set(todo[1..]) by {
      assert todo == [k] + todo[1..];
    }
    forall x | x in order
      ensures Set(ImportsOf(m, x)) <= seen + Set(order)
    {
      assert x in Set(order);
      if x in Set(below) {
        assert x in below;
      } else if x in Set(later) {
        assert x in later;
      }
    }
  }

  lemma DistinctParts(k: string, a: seq<string>, b: seq<string>)
    requires Distinct(a) && Distinct(b)
    requires k !in Set(a) && ({k} + Set(a)) !! Set(b)
    ensures Distinct([k] + a + b)
  {
    var s := [k] + a + b;
    forall i, j | 0 <= i < j < |s|
      ensures s[i] != s[j]
    {
      if j <= |a| {
        assert s[j] == a[j - 1] && s[j] in Set(a);
      } else {
        assert s[j] == b[j - 1 - |a|] && s[j] in Set(b);
        if 1 <= i <= |a| {
          assert s[i] == a[i - 1] && s[i] in Set(a);
        } else if i > |a| {
          assert s[i] == b[i - 1 - |a|];
        }
      }
    }
  }

  /** A chain of imports from the first key to the last. */
  predicate IsPath(m: Manifest, path: seq<string>) {
    |path| >= 1 && forall i :: 0 <= i < |path| - 1 ==> path[i + 1] in ImportsOf(m, path[i])
  }

  ghost predicate Reachable(m: Manifest, key: string) {
    exists path :: IsPath(m, path) && path[0] == ENTRY && path[|path| - 1] == key
  }

  lemma ReachableStep(m: Manifest, key: string, next: string)
    requires Reachable(m, key) && next in ImportsOf(m, key)
    ensures Reachable(m, next)
  {
    var path :| IsPath(m, path) && path[0] == ENTRY && path[|path| - 1] == key;
    var longer := path + [next];
    assert IsPath(m, longer) && longer[0] == ENTRY && longer[|longer| - 1] == next;
  }

  lemma {:induction false} VisitIsReachable(m: Manifest, todo: seq<string>, seen: set<string>)
    requires Set(todo) <= Universe(m)
    requires forall k :: k in todo ==> Reachable(m, k)
    ensures forall k :: k in Visit(m, todo, seen) ==> Reachable(m, k)
    decreases |Universe(m) - seen|, |todo|
  {
    if todo != [] {
      TailWithin(m, todo);
      if todo[0] in seen {
        VisitIsReachable(m, todo[1..], seen);
      } else {
        VisitNew(m, todo, seen);
        forall k | k in ImportsOf(m, todo[0])
          ensures Reachable(m, k)
        {
          ReachableStep(m, todo[0], k);
        }
        VisitIsReachable(m, ImportsOf(m, todo[0]), seen + {todo[0]});
        VisitIsReachable(m, todo[1..], SeenBelow(m, todo[0], seen));
      }
    }
  }

  lemma {:induction false} ClosedContainsPath(m: Manifest, closed: set<string>, path: seq<string>)
    requires IsPath(m, path) && path[0] in closed
    requires forall k :: k in closed ==> Set(ImportsOf(m, k)) <= closed
    ensures path[|path| - 1] in closed
    decreases |path|
  {
    if |path| > 1 {
      assert path[1] in Set(ImportsOf(m, path[0]));
      var tail := path[1..];
      forall i | 0 <= i < |tail| - 1
        ensures tail[i + 1] in ImportsOf(m, tail[i])
      {
        assert path[(i + 1) + 1] in ImportsOf(m, path[i + 1]);
      }
      ClosedContainsPath(m, closed, tail);
    }
  }

  /** The keys visited from the entry. */
  function Walked(m: Manifest): seq<string> {
    ImportsInUniverse(m, ENTRY);
    Visit(m, ImportsOf(m, ENTRY), {ENTRY})
  }

  /**
   On every manifest, cycles included: exactly the keys reachable from the
   entry, other than the entry itself, each once, in preorder.
   */
  lemma WalkedIsReachable(m: Manifest)
    ensures Set(ImportsOf(m, ENTRY)) <= Universe(m)
    ensures Walked(m) == Preorder(m, ImportsOf(m, ENTRY), {ENTRY})
    ensures Distinct(Walked(m))
    ensures forall k :: k in Walked(m) <==> k != ENTRY && Reachable(m, k)
  {
    var imports := ImportsOf(m, ENTRY);
    ImportsInUniverse(m, ENTRY);
    VisitIsPreorder(m, imports, {ENTRY});
    VisitProperties(m, imports, {ENTRY});
    assert Reachable(m, ENTRY) by {
      assert IsPath(m, [ENTRY]) && [ENTRY][0] == ENTRY && [ENTRY][|[ENTRY]| - 1] == ENTRY;
    }
    forall k | k in imports
      ensures Reachable(m, k)
    {
      ReachableStep(m, ENTRY, k);
    }
    VisitIsReachable(m, imports, {ENTRY});
    var closed := {ENTRY} + Set(Walked(m));
    forall k | Reachable(m, k)
      ensures k in closed
    {
      var path :| IsPath(m, path) && path[0] == ENTRY && path[|path| - 1] == k;
      ClosedContainsPath(m, closed, path);
    }
    forall k | k in Walked(m)
      ensures k != ENTRY
    {
      assert k in Set(Walked(m));
    }
  }

  /** Only strings in the imports list of an object count, each in its place. */
  lemma KeysAre(a: seq<Import>, x: Import, b: seq<Import>)
    ensures Keys(a + [x] + b) == Keys(a) + (match x case Key(key) => [key] case NotAString => []) + Keys(b)
  {
    assert [x][1..] == [];
    KeysAppend(a + [x], b);
    KeysAppend(a, [x]);
  }

  lemma {:induction false} KeyListed(items: seq<Import>, k: string)
    ensures k in Keys(items) <==> Key(k) in items
  {
    if items != [] {
      assert items == [items[0]] + items[1..];
      KeyListed(items[1..], k);
    }
  }

  /** The node of a key is an object whose imports list holds the other key. */
  predicate LeadsTo(m: Manifest, key: string, k: string) {
    key in m && m[key].Object? && m[key].imports.List? && Key(k) in m[key].imports.items
  }

  /** Import by import from one key to another. */
  predicate ImportChain(m: Manifest, chain: seq<string>) {
    chain != [] && forall i :: 0 <= i < |chain| - 1 ==> LeadsTo(m, chain[i], chain[i + 1])
  }

  lemma ChainIsPath(m: Manifest, chain: seq<string>)
    ensures ImportChain(m, chain) <==> IsPath(m, chain)
  {
    forall i | 0 <= i < |chain| - 1
      ensures LeadsTo(m, chain[i], chain[i + 1]) <==> chain[i + 1] in ImportsOf(m, chain[i])
    {
      KeyListed(ItemsOf(m, chain[i]), chain[i + 1]);
    }
  }

  lemma {:induction false} FileListed(m: Manifest, keys: seq<string>, file: string)
    ensures file in FilesOf(m, keys) <==> exists k :: k in keys && k in m && m[k].Object? && m[k].file == file && file != ""
  {
    if keys != [] {
      assert keys == [keys[0]] + keys[1..];
      FileListed(m, keys[1..], file);
    }
  }

  /**
   A file is preloaded exactly when it is the file, not empty, of an object
   other than the entry that a chain of imports from the entry leads to.
   */
  lemma PreloadedExactly(m: Manifest, file: string)
    ensures file in FilesOf(m, Walked(m))
            <==> exists chain :: && ImportChain(m, chain) && chain[0] == "index.html" && chain[|chain| - 1] != "index.html"
                                 && chain[|chain| - 1] in m && m[chain[|chain| - 1]].Object?
                                 && m[chain[|chain| - 1]].file == file && file != ""
  {
    WalkedIsReachable(m);
    FileListed(m, Walked(m), file);
    if file in FilesOf(m, Walked(m)) {
      var k :| k in Walked(m) && k in m && m[k].Object? && m[k].file == file && file != "";
      assert Reachable(m, k);
      var path :| IsPath(m, path) && path[0] == ENTRY && path[|path| - 1] == k;
      ChainIsPath(m, path);
    }
    if chain :| && ImportChain(m, chain) && chain[0] == "index.html" && chain[|chain| - 1] != "index.html"
                && chain[|chain| - 1] in m && m[chain[|chain| - 1]].Object? && m[chain[|chain| - 1]].file == file && file != "" {
      ChainIsPath(m, chain);
      assert Reachable(m, chain[|chain| - 1]);
      assert chain[|chain| - 1] in Walked(m);
    }
  }

  // -------------------------------------------------------------- mutable form

  /** The seen set and the output list that the nested walk shares. */
  class PreloadWalk {
    const manifest: Manifest
    var seen: set<string>
    var files: seq<string>

    constructor (manifest: Manifest)
      ensures this.manifest == manifest && seen == {ENTRY} && files == []
    {
      this.manifest := manifest;
      seen, files := {ENTRY}, [];
    }

    method Walk(key: string)
      modifies this
      ensures Set(ImportsOf(manifest, key)) <= Universe(manifest)
      ensures var order := Visit(manifest, ImportsOf(manifest, key), old(seen));
              seen == old(seen) + Set(order) && files == old(files) + FilesOf(manifest, order)
      decreases |Universe(manifest) - seen|, 1
    {
      ImportsInUniverse(manifest, key);
      var items := ItemsOf(manifest, key);
      ghost var order := [];
      for i := 0 to |items|
        invariant Set(Keys(items[..i])) <= Universe(manifest)
        invariant order == Visit(manifest, Keys(items[..i]), old(seen))
        invariant seen == old(seen) + Set(order) && files == old(files) + FilesOf(manifest, order)
      {
        VisitNext(manifest, items, i, old(seen), order);
        if items[i].Key? && items[i].key !in seen {
          var imported := items[i].key;
          ImportsInUniverse(manifest, imported);
          ghost var below := Visit(manifest, ImportsOf(manifest, imported), seen + {imported});
          SeenAfterSubtree(old(seen), order, imported, below);
          FilesAfterSubtree(manifest, old(files), order, imported, below);
          SubsetSize(Universe(manifest) - seen, Universe(manifest) - old(seen));
          Descend(imported);
          order := order + ([imported] + below);
        }
      }
      assert items[..|items|] == items;
    }

    /** The body of the loop for an import not seen before. */
    method Descend(imported: string)
      requires imported !in seen && imported in Universe(manifest)
      modifies this
      ensures Set(ImportsOf(manifest, imported)) <= Universe(manifest)
      ensures var below := Visit(manifest, ImportsOf(manifest, imported), old(seen) + {imported});
              && seen == old(seen) + {imported} + Set(below)
              && files == old(files) + FileOf(manifest, imported) + FilesOf(manifest, below)
      decreases |Universe(manifest) - seen|, 0
    {
      SmallerWithout(Universe(manifest), seen, seen + {imported}, imported);
      seen := seen + {imported};
      if imported in manifest && manifest[imported].Object? && manifest[imported].file != "" {
        files := files + [manifest[imported].file];
      }
      assert files == old(files) + FileOf(manifest, imported);
      Walk(imported);
    }
  }

  lemma FilesOfSubtree(m: Manifest, key: string, below: seq<string>)
    ensures FilesOf(m, [key] + below) == FileOf(m, key) + FilesOf(m, below)
  {
    assert ([key] + below)[1..] == below;
  }

  lemma SeenAfterSubtree(seen: set<string>, order: seq<string>, key: string, below: seq<string>)
    ensures seen + Set(order + ([key] + below)) == (seen + Set(order)) + {key} + Set(below)
  {
    SetAppend(order, [key] + below);
    SetAppend([key], below);
  }

  lemma FilesAfterSubtree(m: Manifest, files: seq<string>, order: seq<string>, key: string, below: seq<string>)
    ensures files + FilesOf(m, order + ([key] + below))
            == ((files + FilesOf(m, order)) + FileOf(m, key)) + FilesOf(m, below)
  {
    FilesAppend(m, order, [key] + below);
    FilesOfSubtree(m, key, below);
    RegroupFiles(files, FilesOf(m, order), FileOf(m, key), FilesOf(m, below));
  }

  lemma RegroupFiles(a: seq<string>, b: seq<string>, c: seq<string>, d: seq<string>)
    ensures a + (b + (c + d)) == ((a + b) + c) + d
  {
  }

  /** How one more item of an imports list extends the walk. */
  lemma VisitNext(m: Manifest, items: seq<Import>, i: nat, seen: set<string>, order: seq<string>)
    requires i < |items| && Set(Keys(items)) <= Universe(m)
    requires Set(Keys(items[..i])) <= Universe(m) && order == Visit(m, Keys(items[..i]), seen)
    ensures Set(Keys(items[..i + 1])) <= Universe(m)
    ensures var next := Visit(m, Keys(items[..i + 1]), seen);
            if items[i].Key? && items[i].key !in seen + Set(order) then
              var k := items[i].key;
              && k in Universe(m)
              && Set(ImportsOf(m, k)) <= Universe(m)
              && |Universe(m) - (seen + Set(order) + {k})| < |Universe(m) - seen|
              && next == order + ([k] + Visit(m, ImportsOf(m, k), seen + Set(order) + {k}))
            else next == order
  {
    KeysAppend(items[..i], [items[i]]);
    KeysAppend(items[..i + 1], items[i + 1..]);
    assert items[..i] + [items[i]] == items[..i + 1];
    assert items[..i + 1] + items[i + 1..] == items;
    SetAppend(Keys(items[..i + 1]), Keys(items[i + 1..]));
    if items[i].Key? {
      var k := items[i].key;
      assert [items[i]][1..] == [];
      assert Keys([items[i]]) == [k];
      SetAppend(Keys(items[..i]), [k]);
      assert k in Set([k]);
      VisitAppend(m, Keys(items[..i]), [k], seen);
      if k !in seen + Set(order) {
        VisitOne(m, k, seen + Set(order));
        SmallerWithout(Universe(m), seen, seen + Set(order) + {k}, k);
      } else {
        assert [k][1..] == [];
        assert Visit(m, [k], seen + Set(order)) == [];
        assert order + [] == order;
      }
    } else {
      assert [items[i]][1..] == [];
      assert Keys([items[i]]) == [];
      assert Keys(items[..i]) + [] == Keys(items[..i]);
    }
  }

  lemma VisitOne(m: Manifest, key: string, seen: set<string>)
    requires key in Universe(m) && key !in seen
    ensures Set([key]) <= Universe(m) && Set(ImportsOf(m, key)) <= Universe(m)
    ensures Visit(m, [key], seen) == [key] + Visit(m, ImportsOf(m, key), seen + {key})
  {
    VisitNew(m, [key], seen);
    assert [key][1..] == [];
  }

  /** The preload list is the files of the reachable keys, in the order of the walk. */
  method ResolvePreloads(manifest: Manifest) returns (files: seq<string>)
    ensures files == FilesOf(manifest, Walked(manifest))
  {
    var walk := new PreloadWalk(manifest);
    walk.Walk(ENTRY);
    files := walk.files;
  }
}
