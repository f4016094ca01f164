/** The pre-commit hook's scope: staged files to owning packages to everything depending on them. */
module AffectedPackages {
  import opened Wrappers
  import opened Worklist

  // A dependency edge as `cargo metadata` lists it: `from` depends on `to`.
  datatype Edge = Edge(from: Id, to: Id)

  // ---- Owning directories ----

  // The two shell patterns: the directory itself, or anything below it.
  predicate Owns(dir: string, file: string) {
    file == dir || (|dir| < |file| && file[..|dir|] == dir && file[|dir|] == '/')
  }

  predicate OwnsFile(dirs: map<Id, string>, id: Id, file: string) {
    id in dirs && Owns(dirs[id], file)
  }

  // A directory owns itself and what is below it, and not what merely begins like it.
  lemma {:induction false} OwnsIff(dir: string, file: string)
    ensures Owns(dir, file) <==> file == dir || exists rest :: file == dir + "/" + rest
  {
    if Owns(dir, file) && file != dir {
      assert file == dir + "/" + file[|dir| + 1..];
    }
    forall rest | file == dir + "/" + rest ensures Owns(dir, file) {
      assert file[..|dir|] == dir && file[|dir|] == '/';
    }
  }

  // `id` owns the file from the longest directory.
  predicate BestOwner(dirs: map<Id, string>, id: Id, file: string) {
    && OwnsFile(dirs, id, file)
    && forall other :: other in dirs && Owns(dirs[other], file) ==> |dirs[other]| <= |dirs[id]|
  }

  // The packages in the order in which the shell happens to enumerate its table.
  ghost predicate Enumerates(order: seq<Id>, dirs: map<Id, string>) {
    forall id :: id in order <==> id in dirs
  }

  // The best owner so far: None while no package owns the file.
  function BestOf(dirs: map<Id, string>, order: seq<Id>, file: string): (best: Option<Id>)
    requires forall id :: id in order ==> id in dirs
    ensures best.Some? ==> best.value in order && Owns(dirs[best.value], file)
    ensures forall id :: id in order && Owns(dirs[id], file) ==>
      best.Some? && |dirs[id]| <= |dirs[best.value]|
  {
    if order == [] then None
    else
      var n := |order| - 1;
      assert forall id :: id in order ==> id in order[..n] || id == order[n];
      var best := BestOf(dirs, order[..n], file);
      if Owns(dirs[order[n]], file) && (best.None? || |dirs[order[n]]| > |dirs[best.value]|)
      then Some(order[n]) else best
  }

  method FindOwner(dirs: map<Id, string>, order: seq<Id>, file: string) returns (bestId: Option<Id>)
    requires forall id :: id in order ==> id in dirs
    ensures bestId == BestOf(dirs, order, file)
  {
    bestId := None;
    var bestLen: int := -1;
    for i := 0 to |order|
      invariant bestId == BestOf(dirs, order[..i], file)
      invariant bestLen == if bestId.Some? then |dirs[bestId.value]| else -1
    {
      var dir := dirs[order[i]];
      assert order[..i + 1][..i] == order[..i];
      if Owns(dir, file) {
        if |dir| > bestLen {
          bestId := Some(order[i]);
          bestLen := |dir|;
        }
      }
    }
    assert order[..|order|] == order;
  }

  // At most one package can be the best owner.
  ghost predicate Unambiguous(dirs: map<Id, string>, file: string) {
    forall a, b :: BestOwner(dirs, a, file) && BestOwner(dirs, b, file) ==> a == b
  }

  lemma {:induction false} BestOfIsBestOwner(dirs: map<Id, string>, order: seq<Id>, file: string)
    requires Enumerates(order, dirs)
    ensures var best := BestOf(dirs, order, file);
      && (best.Some? ==> BestOwner(dirs, best.value, file))
      && (best.None? ==> forall id :: !OwnsFile(dirs, id, file))
  {}

  // Distinct directories leave no ties: two owning directories of one length are one directory.
  lemma {:induction false} DistinctDirsAreUnambiguous(dirs: map<Id, string>, file: string)
    requires forall a, b :: a in dirs && b in dirs && dirs[a] == dirs[b] ==> a == b
    ensures Unambiguous(dirs, file)
  {}

  // The enumeration order never matters for a file exactly when its best owner is unambiguous.
  lemma {:induction false} OrderIrrelevantIff(dirs: map<Id, string>, file: string)
    ensures (forall p, q :: Enumerates(p, dirs) && Enumerates(q, dirs) ==> BestOf(dirs, p, file) == BestOf(dirs, q, file))
      <==> Unambiguous(dirs, file)
  {
    if Unambiguous(dirs, file) {
      forall p, q | Enumerates(p, dirs) && Enumerates(q, dirs)
        ensures BestOf(dirs, p, file) == BestOf(dirs, q, file)
      {
        BestOfIsBestOwner(dirs, p, file);
        BestOfIsBestOwner(dirs, q, file);
      }
    } else {
      var a, b :| BestOwner(dirs, a, file) && BestOwner(dirs, b, file) && a != b;
      var rest := SomeOrder(dirs);
      FirstBestStays(dirs, [a], rest, file);
      FirstBestStays(dirs, [b], rest, file);
      assert Enumerates([a] + rest, dirs) && Enumerates([b] + rest, dirs);
    }
  }

  lemma {:induction false} SomeOrder(dirs: map<Id, string>) returns (order: seq<Id>)
    ensures Enumerates(order, dirs)
  {
    order := [];
    var todo := dirs.Keys;
    while todo != {}
      invariant todo <= dirs.Keys
      invariant forall id :: id in order <==> id in dirs.Keys - todo
      decreases todo
    {
      var id :| id in todo;
      order := order + [id];
      todo := todo - {id};
    }
  }

  lemma {:induction false} FirstBestStays(dirs: map<Id, string>, first: seq<Id>, rest: seq<Id>, file: string)
    requires |first| == 1 && BestOwner(dirs, first[0], file)
    requires forall id :: id in rest ==> id in dirs
    ensures forall id :: id in first + rest ==> id in dirs
    ensures BestOf(dirs, first + rest, file) == Some(first[0])
  {
    if rest == [] {
      assert first + rest == first;
      assert first[..0] == [];
    } else {
      var n := |rest| - 1;
      assert (first + rest)[..|first| + n] == first + rest[..n];
      FirstBestStays(dirs, first, rest[..n], file);
    }
  }

  // ---- Seeds ----

  function Seeds(dirs: map<Id, string>, order: seq<Id>, files: seq<string>): set<Id>
    requires forall id :: id in order ==> id in dirs
  {
    set i | 0 <= i < |files| && BestOf(dirs, order, files[i]).Some? :: BestOf(dirs, order, files[i]).value
  }

  // ---- Reverse edges, kept as blank-separated words in a string ----

  predicate IsBlank(c: char) {
    c == ' ' || c == '\t' || c == '\n'
  }

  // A package id the shell's word splitting keeps in one piece.
  predicate IsWord(s: string) {
    s != "" && forall i :: 0 <= i < |s| ==> !IsBlank(s[i])
  }

  // Unquoted expansion: the maximal runs without blanks. `word` is the run being read.
  function Words(s: string, word: string): seq<string> {
    if s == "" then if word == "" then [] else [word]
    else if IsBlank(s[0]) then (if word == "" then [] else [word]) + Words(s[1..], "")
    else Words(s[1..], word + [s[0]])
  }

  lemma {:induction false} WordsAppend(s: string, word: string, w: string)
    requires IsWord(w)
    ensures Words(s + " " + w, word) == Words(s, word) + [w]
  {
    if s == "" {
      assert s + " " + w == " " + w;
      assert (" " + w)[1..] == w;
      WordsOfWord(w, "");
      assert "" + w == w;
    } else {
      assert (s + " " + w)[1..] == s[1..] + " " + w;
      WordsAppend(s[1..], if IsBlank(s[0]) then "" else word + [s[0]], w);
    }
  }

  lemma {:induction false} WordsOfWord(w: string, word: string)
    requires forall i :: 0 <= i < |w| ==> !IsBlank(w[i])
    requires w != "" || word != ""
    ensures Words(w, word) == [word + w]
  {
    if w == "" {
      assert word + w == word;
    } else {
      WordsOfWord(w[1..], word + [w[0]]);
      assert word + [w[0]] + w[1..] == word + w;
    }
  }

  function Line(table: map<Id, string>, id: Id): string {
    if id in table then table[id] else ""
  }

  // The dependents the loop will see for a package.
  function Dependents(table: map<Id, string>, id: Id): seq<Id> {
    Words(Line(table, id), "")
  }

  function ReverseTable(edges: seq<Edge>): map<Id, string> {
    if edges == [] then map[]
    else
      var t := ReverseTable(edges[..|edges| - 1]);
      var e := edges[|edges| - 1];
      if e.from == "" then t else t[e.to := Line(t, e.to) + " " + e.from]
  }

  method BuildReverse(edges: seq<Edge>) returns (table: map<Id, string>)
    ensures table == ReverseTable(edges)
  {
    table := map[];
    for i := 0 to |edges|
      invariant table == ReverseTable(edges[..i])
    {
      assert edges[..i + 1][..i] == edges[..i];
      if edges[i].from != "" {
        table := table[edges[i].to := Line(table, edges[i].to) + " " + edges[i].from];
      }
    }
    assert edges[..|edges|] == edges;
  }

  // For ids without blanks the words are the dependents, one for one.
  lemma {:induction false} DependentsAreEdges(edges: seq<Edge>, id: Id, dep: Id)
    requires forall i :: 0 <= i < |edges| ==> IsWord(edges[i].from)
    ensures dep in Dependents(ReverseTable(edges), id) <==> Edge(dep, id) in edges
  {
    if edges == [] {
    } else {
      var n := |edges| - 1;
      var t, e := ReverseTable(edges[..n]), edges[n];
      DependentsAreEdges(edges[..n], id, dep);
      WordsAppend(Line(t, e.to), "", e.from);
      assert edges == edges[..n] + [e];
      if id == e.to {
        assert Dependents(ReverseTable(edges), id) == Dependents(t, id) + [e.from];
      } else {
        assert Dependents(ReverseTable(edges), id) == Dependents(t, id);
      }
    }
  }

  lemma {:induction false} WordsAreWords(s: string, word: string, w: string)
    requires w in Words(s, word) && forall i :: 0 <= i < |word| ==> !IsBlank(word[i])
    ensures IsWord(w)
  {
    if s == "" {
    } else {
      if IsBlank(s[0]) {
        if w in Words(s[1..], "") {
          WordsAreWords(s[1..], "", w);
        }
      } else {
        WordsAreWords(s[1..], word + [s[0]], w);
      }
    }
  }

  // The table lists exactly the dependency edges if and only if no id has a blank in it, and
  // none is empty.
  lemma {:induction false} DependentsAreEdgesIff(edges: seq<Edge>)
    ensures (forall id, dep :: dep in Dependents(ReverseTable(edges), id) <==> Edge(dep, id) in edges) <==>
      forall i :: 0 <= i < |edges| ==> IsWord(edges[i].from)
  {
    if forall i :: 0 <= i < |edges| ==> IsWord(edges[i].from) {
      forall id, dep ensures dep in Dependents(ReverseTable(edges), id) <==> Edge(dep, id) in edges {
        DependentsAreEdges(edges, id, dep);
      }
    } else {
      var i :| 0 <= i < |edges| && !IsWord(edges[i].from);
      var e := edges[i];
      assert Edge(e.from, e.to) in edges;
      if e.from in Dependents(ReverseTable(edges), e.to) {
        WordsAreWords(Line(ReverseTable(edges), e.to), "", e.from);
      }
    }
  }

  // ---- The hook ----

  predicate ManifestTouched(files: seq<string>) {
    "scm/Cargo.toml" in files || "scm/Cargo.lock" in files
  }

  // The packages to visit after a package, as the hook's unquoted loop sees them.
  function ReverseDeps(edges: seq<Edge>): Successors {
    var table := ReverseTable(edges);
    id => Dependents(table, id)
  }

  // What the hook is for.
  ghost predicate IsAffected(dirs: map<Id, string>, order: seq<Id>, edges: seq<Edge>, files: seq<string>, id: Id)
    requires forall id :: id in order ==> id in dirs
  {
    if ManifestTouched(files) then id in dirs
    else Reachable(ReverseDeps(edges), Seeds(dirs, order, files), id)
  }

  method Seed(dirs: map<Id, string>, order: seq<Id>, files: seq<string>)
    returns (affected: set<Id>, queue: seq<Id>)
    requires forall id :: id in order ==> id in dirs
    ensures affected == Seeds(dirs, order, files)
    ensures NoDuplicates(queue) && Members(queue) == affected
  {
    affected, queue := {}, [];
    for i := 0 to |files|
      invariant affected == Seeds(dirs, order, files[..i])
      invariant NoDuplicates(queue) && Members(queue) == affected
    {
      var best := FindOwner(dirs, order, files[i]);
      SeedsGrow(dirs, order, files, i);
      if best.Some? && best.value !in affected {
        affected := affected + {best.value};
        queue := queue + [best.value];
      }
    }
    assert files[..|files|] == files;
  }

  lemma {:induction false} SeedsGrow(dirs: map<Id, string>, order: seq<Id>, files: seq<string>, i: nat)
    requires i < |files| && forall id :: id in order ==> id in dirs
    ensures var best := BestOf(dirs, order, files[i]);
      Seeds(dirs, order, files[..i + 1]) ==
        Seeds(dirs, order, files[..i]) + if best.Some? then {best.value} else {}
  {}

  method Affected(dirs: map<Id, string>, order: seq<Id>, edges: seq<Edge>, files: seq<string>)
    returns (affected: set<Id>)
    requires forall id :: id in order ==> id in dirs
    ensures forall id :: id in affected <==> IsAffected(dirs, order, edges, files, id)
  {
    if "scm/Cargo.toml" in files || "scm/Cargo.lock" in files {
      return dirs.Keys;
    }
    var table := BuildReverse(edges);
    var seeds, queue := Seed(dirs, order, files);
    ghost var universe := set to, dep | to in table && dep in Dependents(table, to) :: dep;
    DependentsAreBounded(table, universe);
    ghost var enqueued: seq<Id>;
    affected, enqueued := Spread(id => Dependents(table, id), universe, seeds, seeds, queue);
  }

  lemma {:induction false} DependentsAreBounded(table: map<Id, string>, universe: set<Id>)
    requires universe == set to, dep | to in table && dep in Dependents(table, to) :: dep
    ensures Bounded(id => Dependents(table, id), universe)
  {}

  // ---- Main results about the affected set ----

  // A chain of dependencies from a package up to one that owns a staged file.
  ghost predicate DependsOnSeed(edges: seq<Edge>, seeds: set<Id>, walk: seq<Id>) {
    && walk != [] && walk[0] in seeds
    && forall i :: 0 < i < |walk| ==> Edge(walk[i], walk[i - 1]) in edges
  }

  // With ids free of blanks the closure is the one over real dependency edges.
  lemma {:induction false} WalksAreDependencyChains(edges: seq<Edge>, seeds: set<Id>, walk: seq<Id>)
    requires forall i :: 0 <= i < |edges| ==> IsWord(edges[i].from)
    ensures IsWalk(ReverseDeps(edges), seeds, walk) <==> DependsOnSeed(edges, seeds, walk)
  {
    forall i | 0 < i < |walk|
      ensures walk[i] in Dependents(ReverseTable(edges), walk[i - 1]) <==> Edge(walk[i], walk[i - 1]) in edges
    {
      DependentsAreEdges(edges, walk[i - 1], walk[i]);
    }
  }

  // A chain of dependencies that ends at the package, from a best owner of a staged file on.
  ghost predicate ReachesFromFile(dirs: map<Id, string>, edges: seq<Edge>, files: seq<string>, walk: seq<Id>, id: Id) {
    && walk != [] && walk[|walk| - 1] == id
    && (exists i :: 0 <= i < |files| && BestOwner(dirs, walk[0], files[i]))
    && forall i :: 0 < i < |walk| ==> Edge(walk[i], walk[i - 1]) in edges
  }

  // The scope from the staged files, directories and edges alone: with a staged manifest every
  // package; else, with distinct directories and ids free of blanks, what depends on a best owner
  // of a staged file.
  lemma {:induction false} ScopeIs(dirs: map<Id, string>, order: seq<Id>, edges: seq<Edge>, files: seq<string>, id: Id)
    requires Enumerates(order, dirs)
    requires forall a, b :: a in dirs && b in dirs && dirs[a] == dirs[b] ==> a == b
    requires forall i :: 0 <= i < |edges| ==> IsWord(edges[i].from)
    ensures IsAffected(dirs, order, edges, files, id) <==>
      if "scm/Cargo.toml" in files || "scm/Cargo.lock" in files then id in dirs
      else exists walk :: ReachesFromFile(dirs, edges, files, walk, id)
  {
    var succ, seeds := ReverseDeps(edges), Seeds(dirs, order, files);
    if !ManifestTouched(files) {
      if Reachable(succ, seeds, id) {
        var walk :| IsWalk(succ, seeds, walk) && walk[|walk| - 1] == id;
        WalksAreDependencyChains(edges, seeds, walk);
        SeedIffBestOwner(dirs, order, files, walk[0]);
        assert ReachesFromFile(dirs, edges, files, walk, id);
      }
      if walk :| ReachesFromFile(dirs, edges, files, walk, id) {
        SeedIffBestOwner(dirs, order, files, walk[0]);
        assert DependsOnSeed(edges, seeds, walk);
        WalksAreDependencyChains(edges, seeds, walk);
      }
    }
  }

  lemma {:induction false} SeedIffBestOwner(dirs: map<Id, string>, order: seq<Id>, files: seq<string>, id: Id)
    requires Enumerates(order, dirs)
    requires forall a, b :: a in dirs && b in dirs && dirs[a] == dirs[b] ==> a == b
    ensures id in Seeds(dirs, order, files) <==> exists i :: 0 <= i < |files| && BestOwner(dirs, id, files[i])
  {
    forall i | 0 <= i < |files|
      ensures BestOf(dirs, order, files[i]) == Some(id) <==> BestOwner(dirs, id, files[i])
    {
      BestOfIsBestOwner(dirs, order, files[i]);
      DistinctDirsAreUnambiguous(dirs, files[i]);
    }
  }

  // The hook looks up the name of every affected package, which only workspace packages have.
  // It finds them all exactly when no dependency chain from a staged file leaves the workspace.
  lemma {:induction false} AffectedInWorkspaceIff(dirs: map<Id, string>, order: seq<Id>, edges: seq<Edge>, files: seq<string>)
    requires forall id :: id in order ==> id in dirs
    ensures (forall id :: IsAffected(dirs, order, edges, files, id) ==> id in dirs) <==>
      ManifestTouched(files) || NeverLeaves(dirs, ReverseDeps(edges), Seeds(dirs, order, files))
  {
    var succ, seeds := ReverseDeps(edges), Seeds(dirs, order, files);
    if ManifestTouched(files) {
    } else if NeverLeaves(dirs, succ, seeds) {
      forall id | Reachable(succ, seeds, id) ensures id in dirs {
        var walk :| IsWalk(succ, seeds, walk) && walk[|walk| - 1] == id;
        WalkInWorkspace(dirs, succ, seeds, walk);
      }
    } else {
      var id, dep :| Reachable(succ, seeds, id) && dep in succ(id) && dep !in dirs;
      StepReachable(succ, seeds, id, dep);
      assert IsAffected(dirs, order, edges, files, dep);
    }
  }

  // Every dependent of a reachable package is a workspace package.
  ghost predicate NeverLeaves(dirs: map<Id, string>, succ: Successors, seeds: set<Id>) {
    forall id, dep :: Reachable(succ, seeds, id) && dep in succ(id) ==> dep in dirs
  }

  lemma {:induction false} WalkInWorkspace(dirs: map<Id, string>, succ: Successors, seeds: set<Id>, walk: seq<Id>)
    requires seeds <= dirs.Keys && NeverLeaves(dirs, succ, seeds) && IsWalk(succ, seeds, walk)
    ensures walk[|walk| - 1] in dirs
  {
    if |walk| > 1 {
      var before := walk[..|walk| - 1];
      assert IsWalk(succ, seeds, before);
      assert Reachable(succ, seeds, before[|before| - 1]);
    }
  }

  // Without a staged manifest, scopes add up.
  lemma {:induction false} AffectedOfUnion(dirs: map<Id, string>, order: seq<Id>, edges: seq<Edge>,
                                           f: seq<string>, g: seq<string>, id: Id)
    requires forall id :: id in order ==> id in dirs
    requires !ManifestTouched(f) && !ManifestTouched(g)
    ensures IsAffected(dirs, order, edges, f + g, id) <==>
      IsAffected(dirs, order, edges, f, id) || IsAffected(dirs, order, edges, g, id)
  {
    var succ := ReverseDeps(edges);
    var a, b, ab := Seeds(dirs, order, f), Seeds(dirs, order, g), Seeds(dirs, order, f + g);
    SeedsOfUnion(dirs, order, f, g);
    if Reachable(succ, ab, id) {
      var walk :| IsWalk(succ, ab, walk) && walk[|walk| - 1] == id;
      assert IsWalk(succ, a, walk) || IsWalk(succ, b, walk);
    }
    if Reachable(succ, a, id) {
      var walk :| IsWalk(succ, a, walk) && walk[|walk| - 1] == id;
      assert IsWalk(succ, ab, walk);
    }
    if Reachable(succ, b, id) {
      var walk :| IsWalk(succ, b, walk) && walk[|walk| - 1] == id;
      assert IsWalk(succ, ab, walk);
    }
  }

  lemma {:induction false} SeedsOfUnion(dirs: map<Id, string>, order: seq<Id>, f: seq<string>, g: seq<string>)
    requires forall id :: id in order ==> id in dirs
    ensures Seeds(dirs, order, f + g) == Seeds(dirs, order, f) + Seeds(dirs, order, g)
  {
    forall id | id in Seeds(dirs, order, f) + Seeds(dirs, order, g) ensures id in Seeds(dirs, order, f + g) {
      if id in Seeds(dirs, order, f) {
        var i :| 0 <= i < |f| && BestOf(dirs, order, f[i]) == Some(id);
        assert (f + g)[i] == f[i];
      } else {
        var i :| 0 <= i < |g| && BestOf(dirs, order, g[i]) == Some(id);
        assert (f + g)[|f| + i] == g[i];
      }
    }
  }

  // Nor does it matter in which order the shell enumerates packages with distinct directories.
  lemma {:induction false} SeedsIgnoreOrder(dirs: map<Id, string>, p: seq<Id>, q: seq<Id>, files: seq<string>)
    requires Enumerates(p, dirs) && Enumerates(q, dirs)
    requires forall i :: 0 <= i < |files| ==> Unambiguous(dirs, files[i])
    ensures Seeds(dirs, p, files) == Seeds(dirs, q, files)
  {
    forall i | 0 <= i < |files| ensures BestOf(dirs, p, files[i]) == BestOf(dirs, q, files[i]) {
      OrderIrrelevantIff(dirs, files[i]);
    }
  }
}
