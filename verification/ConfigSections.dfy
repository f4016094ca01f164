/** `load_section`: dotted keys and the shallow merge of TOML tables. */
module ConfigSections {
  import opened Wrappers
  import opened Strings

  // Everything that is not a table is kept as its text; `get` with a name only enters tables.
  datatype Toml = Table(entries: map<string, Toml>) | Leaf(text: string)

  const EMPTY_TABLE := Table(map[])

  // One directory's `application.toml`, as reading it turns out.
  datatype Doc = NoFile | IoFails(path: string) | Malformed(path: string) | Doc(root: Toml)

  datatype SectionError = Io(path: string) | Parse(path: string)

  // What is handed on to deserialization.
  datatype Section = UseDefault | Decode(value: Toml)

  // ---- Merging two values ----

  function Merge(base: Toml, overlay: Toml): Toml {
    if base.Table? && overlay.Table? then Table(base.entries + overlay.entries) else overlay
  }

  method MergeValues(base: Toml, overlay: Toml) returns (r: Toml)
    ensures r == Merge(base, overlay)
  {
    if base.Table? && overlay.Table? {
      var entries := base.entries;
      var todo := overlay.entries.Keys;
      while todo != {}
        invariant todo <= overlay.entries.Keys
        invariant entries == base.entries + (overlay.entries - todo)
        decreases todo
      {
        var k :| k in todo;
        entries := entries[k := overlay.entries[k]];
        todo := todo - {k};
      }
      assert overlay.entries - {} == overlay.entries;
      return Table(entries);
    }
    r := overlay;
  }

  // The merge is not associative; this is exactly where it is.
  lemma {:induction false} MergeAssociativeIff(a: Toml, b: Toml, c: Toml)
    ensures Merge(Merge(a, b), c) == Merge(a, Merge(b, c)) <==>
      (a.Table? && !b.Table? && c.Table? ==> a.entries.Keys <= c.entries.Keys)
  {}

  // ---- Dotted keys ----

  function Walk(val: Toml, parts: seq<string>): Option<Toml> {
    if parts == [] then Some(val)
    else if val.Table? && parts[0] in val.entries then Walk(val.entries[parts[0]], parts[1..])
    else None
  }

  method ExtractDotted(val: Toml, key: string) returns (r: Option<Toml>)
    ensures r == Walk(val, Split(key, '.'))
  {
    var parts := Split(key, '.');
    var current := val;
    for i := 0 to |parts|
      invariant Walk(val, parts) == Walk(current, parts[i..])
    {
      assert parts[i..][1..] == parts[i + 1..];
      if !(current.Table? && parts[i] in current.entries) {
        return None;
      }
      current := current.entries[parts[i]];
    }
    r := Some(current);
  }

  // ---- The fold over directories ----

  // The sections found, lowest priority first, or the error of the first bad file.
  function Sections(docs: seq<Doc>, parts: seq<string>): Result<seq<Toml>, SectionError> {
    if docs == [] then Ok([])
    else
      var before := Sections(docs[..|docs| - 1], parts);
      if before.Err? then before
      else
        match docs[|docs| - 1]
        case NoFile => before
        case IoFails(path) => Err(Io(path))
        case Malformed(path) => Err(Parse(path))
        case Doc(root) =>
          var found := Walk(root, parts);
          if found.Some? then Ok(before.value + [found.value]) else before
  }

  function Fold(sections: seq<Toml>): Toml {
    if sections == [] then EMPTY_TABLE else Merge(Fold(sections[..|sections| - 1]), sections[|sections| - 1])
  }

  function Loaded(docs: seq<Doc>, key: string): Result<Section, SectionError> {
    var sections := Sections(docs, Split(key, '.'));
    if sections.Err? then Err(sections.error)
    else if Fold(sections.value) == EMPTY_TABLE then Ok(UseDefault)
    else Ok(Decode(Fold(sections.value)))
  }

  lemma {:induction false} SectionsGrow(docs: seq<Doc>, parts: seq<string>, i: nat)
    requires i < |docs|
    ensures docs[..i + 1][..i] == docs[..i]
    ensures Sections(docs[..i], parts).Err? ==> Sections(docs[..i + 1], parts) == Sections(docs[..i], parts)
  {}

  lemma {:induction false} FirstErrorWins(docs: seq<Doc>, parts: seq<string>, i: nat)
    requires i <= |docs| && Sections(docs[..i], parts).Err?
    ensures Sections(docs, parts) == Sections(docs[..i], parts)
    decreases |docs| - i
  {
    if i == |docs| {
      assert docs[..i] == docs;
    } else {
      SectionsGrow(docs, parts, i);
      FirstErrorWins(docs, parts, i + 1);
    }
  }

  method LoadSection(docs: seq<Doc>, key: string) returns (r: Result<Section, SectionError>)
    ensures r == Loaded(docs, key)
    ensures Answers(docs, key, r)
  {
    LoadedAnswers(docs, key);
    ghost var parts := Split(key, '.');
    ghost var found: seq<Toml> := [];
    var merged := EMPTY_TABLE;
    for i := 0 to |docs|
      invariant Sections(docs[..i], parts) == Ok(found) && merged == Fold(found)
    {
      SectionsGrow(docs, parts, i);
      match docs[i]
      case NoFile =>
      case IoFails(path) =>
        FirstErrorWins(docs, parts, i + 1);
        return Err(Io(path));
      case Malformed(path) =>
        FirstErrorWins(docs, parts, i + 1);
        return Err(Parse(path));
      case Doc(root) =>
        var section := ExtractDotted(root, key);
        if section.Some? {
          assert (found + [section.value])[..|found|] == found;
          merged := MergeValues(merged, section.value);
          found := found + [section.value];
        }
    }
    assert docs[..|docs|] == docs;
    if merged == EMPTY_TABLE {
      return Ok(UseDefault);
    }
    r := Ok(Decode(merged));
  }

  // ---- What a load answers, file by file ----

  function Entry(val: Toml, k: string): Option<Toml> {
    if val.Table? && k in val.entries then Some(val.entries[k]) else None
  }

  // What one file holds under the key.
  function SectionOf(doc: Doc, parts: seq<string>): Option<Toml> {
    if doc.Doc? then Walk(doc.root, parts) else None
  }

  // The highest file that holds anything under the key.
  ghost predicate IsTop(docs: seq<Doc>, parts: seq<string>, i: nat) {
    && i < |docs| && SectionOf(docs[i], parts).Some?
    && forall j :: i < j < |docs| ==> SectionOf(docs[j], parts).None?
  }

  // File i holds a table with the entry, and no file above it holds the entry or anything but a table.
  ghost predicate Decides(docs: seq<Doc>, parts: seq<string>, i: nat, k: string, x: Toml) {
    && i < |docs| && SectionOf(docs[i], parts).Some? && Entry(SectionOf(docs[i], parts).value, k) == Some(x)
    && forall j :: i < j < |docs| && SectionOf(docs[j], parts).Some? ==>
         SectionOf(docs[j], parts).value.Table? && Entry(SectionOf(docs[j], parts).value, k).None?
  }

  // The value is a plain one exactly when the highest file's is, and then that one; and its
  // entries are those that some file decides.
  ghost predicate MergedIs(docs: seq<Doc>, parts: seq<string>, v: Toml) {
    && (v.Leaf? ==> exists i: nat :: IsTop(docs, parts, i) && SectionOf(docs[i], parts) == Some(v))
    && (v.Table? ==> forall i: nat :: IsTop(docs, parts, i) ==> SectionOf(docs[i], parts).value.Table?)
    && forall k, x :: Entry(v, k) == Some(x) <==> exists i: nat :: Decides(docs, parts, i, k, x)
  }

  ghost predicate AllReadable(docs: seq<Doc>) {
    forall i :: 0 <= i < |docs| ==> docs[i].NoFile? || docs[i].Doc?
  }

  ghost predicate FirstBad(docs: seq<Doc>, i: nat, e: SectionError) {
    && i < |docs| && AllReadable(docs[..i])
    && docs[i] == if e.Io? then IoFails(e.path) else Malformed(e.path)
  }

  // The answer of a load, in terms of its files alone.
  ghost predicate Answers(docs: seq<Doc>, key: string, r: Result<Section, SectionError>) {
    match r
    case Err(e) => exists i: nat :: FirstBad(docs, i, e)
    case Ok(UseDefault) => AllReadable(docs) && MergedIs(docs, Split(key, '.'), EMPTY_TABLE)
    case Ok(Decode(v)) => AllReadable(docs) && v != EMPTY_TABLE && MergedIs(docs, Split(key, '.'), v)
  }

  lemma {:induction false} LoadedAnswers(docs: seq<Doc>, key: string)
    ensures Answers(docs, key, Loaded(docs, key))
  {
    var parts := Split(key, '.');
    SectionsOkIff(docs, parts);
    if Sections(docs, parts).Ok? {
      MergedFromFiles(docs, parts);
    }
  }

  lemma {:induction false} SectionsOkIff(docs: seq<Doc>, parts: seq<string>)
    ensures Sections(docs, parts).Ok? <==> AllReadable(docs)
    ensures Sections(docs, parts).Err? ==> exists i: nat :: FirstBad(docs, i, Sections(docs, parts).error)
  {
    if docs == [] {
    } else {
      var n := |docs| - 1;
      var low := docs[..n];
      SectionsOkIff(low, parts);
      if Sections(low, parts).Err? {
        var e := Sections(low, parts).error;
        var i: nat :| FirstBad(low, i, e);
        assert low[..i] == docs[..i] && low[i] == docs[i];
        assert FirstBad(docs, i, e);
      } else if docs[n].IoFails? || docs[n].Malformed? {
        assert FirstBad(docs, n, Sections(docs, parts).error);
      }
    }
  }

  lemma {:induction false} MergedFromFiles(docs: seq<Doc>, parts: seq<string>)
    requires Sections(docs, parts).Ok?
    ensures MergedIs(docs, parts, Fold(Sections(docs, parts).value))
  {
    if docs == [] {
    } else {
      var n := |docs| - 1;
      var low := docs[..n];
      MergedFromFiles(low, parts);
      var found, before := SectionOf(docs[n], parts), Fold(Sections(low, parts).value);
      if found.None? {
        NothingOnTop(docs, parts, before);
      } else {
        var sections := Sections(low, parts).value;
        assert (sections + [found.value])[..|sections|] == sections;
        if found.value.Leaf? {
          LeafOnTop(docs, parts, found.value);
        } else {
          TableOnTop(docs, parts, before, found.value);
        }
      }
    }
  }

  lemma {:induction false} NothingOnTop(docs: seq<Doc>, parts: seq<string>, v: Toml)
    requires docs != [] && SectionOf(docs[|docs| - 1], parts).None? && MergedIs(docs[..|docs| - 1], parts, v)
    ensures MergedIs(docs, parts, v)
  {
    var low := docs[..|docs| - 1];
    forall i: nat ensures IsTop(docs, parts, i) <==> IsTop(low, parts, i) {}
    forall i: nat, k, x ensures Decides(docs, parts, i, k, x) <==> Decides(low, parts, i, k, x) {}
    if v.Leaf? {
      var i: nat :| IsTop(low, parts, i) && SectionOf(low[i], parts) == Some(v);
      assert IsTop(docs, parts, i);
    }
    forall k, x ensures Entry(v, k) == Some(x) <==> exists i: nat :: Decides(docs, parts, i, k, x) {
      if i: nat :| Decides(docs, parts, i, k, x) {
        assert Decides(low, parts, i, k, x);
      }
      if Entry(v, k) == Some(x) {
        var i: nat :| Decides(low, parts, i, k, x);
        assert Decides(docs, parts, i, k, x);
      }
    }
  }

  lemma {:induction false} LeafOnTop(docs: seq<Doc>, parts: seq<string>, v: Toml)
    requires docs != [] && v.Leaf? && SectionOf(docs[|docs| - 1], parts) == Some(v)
    ensures MergedIs(docs, parts, v)
  {
    var n := |docs| - 1;
    assert IsTop(docs, parts, n);
    forall i: nat, k, x ensures !Decides(docs, parts, i, k, x) {}
  }

  lemma {:induction false} TableOnTop(docs: seq<Doc>, parts: seq<string>, before: Toml, t: Toml)
    requires docs != [] && t.Table? && SectionOf(docs[|docs| - 1], parts) == Some(t)
    requires MergedIs(docs[..|docs| - 1], parts, before)
    ensures MergedIs(docs, parts, Merge(before, t))
  {
    var n, v := |docs| - 1, Merge(before, t);
    var low := docs[..n];
    forall i: nat | IsTop(docs, parts, i) ensures i == n {}
    forall k, x ensures Entry(v, k) == Some(x) <==> exists i: nat :: Decides(docs, parts, i, k, x) {
      if k in t.entries {
        if Entry(v, k) == Some(x) {
          assert Decides(docs, parts, n, k, x);
        }
        if i: nat :| Decides(docs, parts, i, k, x) {
          assert i == n;
        }
      } else {
        assert Entry(v, k) == Entry(before, k);
        if Entry(v, k) == Some(x) {
          assert Entry(before, k) == Some(x);
          var i: nat :| Decides(low, parts, i, k, x);
          assert Decides(docs, parts, i, k, x);
        }
        if i: nat :| Decides(docs, parts, i, k, x) {
          assert Decides(low, parts, i, k, x);
        }
      }
    }
  }

  // There is only one such answer.
  lemma {:induction false} AnswerIsUnique(docs: seq<Doc>, key: string, r: Result<Section, SectionError>)
    requires Answers(docs, key, r)
    ensures r == Loaded(docs, key)
  {
    var l := Loaded(docs, key);
    LoadedAnswers(docs, key);
    SectionsOkIff(docs, Split(key, '.'));
    if r.Err? {
      var i: nat :| FirstBad(docs, i, r.error);
      var j: nat :| FirstBad(docs, j, l.error);
      SameFirstBad(docs, i, r.error, j, l.error);
    } else {
      var a := if r.value.UseDefault? then EMPTY_TABLE else r.value.value;
      var b := if l.value.UseDefault? then EMPTY_TABLE else l.value.value;
      MergedIsUnique(docs, Split(key, '.'), a, b);
    }
  }

  lemma {:induction false} SameFirstBad(docs: seq<Doc>, i: nat, d: SectionError, j: nat, e: SectionError)
    requires FirstBad(docs, i, d) && FirstBad(docs, j, e)
    ensures i == j && d == e
  {
    assert forall k :: 0 <= k < i ==> docs[..i][k] == docs[k];
    assert forall k :: 0 <= k < j ==> docs[..j][k] == docs[k];
  }

  lemma {:induction false} MergedIsUnique(docs: seq<Doc>, parts: seq<string>, a: Toml, b: Toml)
    requires MergedIs(docs, parts, a) && MergedIs(docs, parts, b)
    ensures a == b
  {
    LeafIff(docs, parts, a);
    LeafIff(docs, parts, b);
    if a.Leaf? {
      var i: nat :| IsTop(docs, parts, i) && SectionOf(docs[i], parts) == Some(a);
      var j: nat :| IsTop(docs, parts, j) && SectionOf(docs[j], parts) == Some(b);
      assert !(i < j) && !(j < i);
    } else {
      forall k: string ensures Entry(a, k) == Entry(b, k) {
        if Entry(a, k).Some? {
          assert Entry(b, k) == Some(Entry(a, k).value);
        } else if Entry(b, k).Some? {
          assert Entry(a, k) == Some(Entry(b, k).value);
        }
      }
      SameEntries(a, b);
    }
  }

  lemma {:induction false} LeafIff(docs: seq<Doc>, parts: seq<string>, v: Toml)
    requires MergedIs(docs, parts, v)
    ensures v.Leaf? <==> exists i: nat :: IsTop(docs, parts, i) && SectionOf(docs[i], parts).value.Leaf?
  {
    if v.Leaf? {
      var i: nat :| IsTop(docs, parts, i) && SectionOf(docs[i], parts) == Some(v);
      assert SectionOf(docs[i], parts).value.Leaf?;
    }
  }

  // What was loaded under `a` holds under `c` is loaded under `a.c`: the very value when it is
  // plain, and with all its entries when it is a table. `a` and `c` may be dotted themselves.
  lemma {:induction false} LoadsRefine(docs: seq<Doc>, a: string, c: string, r: Result<Section, SectionError>,
                                       q: Result<Section, SectionError>, entry: Toml)
    requires Answers(docs, a, r) && Answers(docs, a + "." + c, q)
    requires r.Ok? && r.value.Decode? && Walk(r.value.value, Split(c, '.')) == Some(entry)
    ensures q.Ok?
    ensures entry.Leaf? ==> q == Ok(Decode(entry))
    ensures entry.Table? && entry != EMPTY_TABLE ==> q.value.Decode? && q.value.value.Table?
    ensures entry.Table? && q.value.Decode? ==>
      forall k :: k in entry.entries ==> Entry(q.value.value, k) == Some(entry.entries[k])
  {
    AnswerIsUnique(docs, a, r);
    AnswerIsUnique(docs, a + "." + c, q);
    SubsectionRefinesParent(docs, a, c);
    if entry.Table? && entry != EMPTY_TABLE {
      assert entry.entries.Keys != {};
      var k :| k in entry.entries;
      assert Entry(Parent(docs, a + "." + c), k).Some?;
    }
  }

  // ---- The closed form of the fold ----

  predicate AllTables(sections: seq<Toml>) {
    forall i :: 0 <= i < |sections| ==> sections[i].Table?
  }

  // The table sections after the last section that is not a table.
  function TableSuffix(sections: seq<Toml>): (r: seq<Toml>)
    ensures AllTables(r)
  {
    if sections == [] || !sections[|sections| - 1].Table? then []
    else TableSuffix(sections[..|sections| - 1]) + [sections[|sections| - 1]]
  }

  // The entry of the highest-priority table that has the key.
  function LastEntry(tables: seq<Toml>, k: string): Option<Toml>
    requires AllTables(tables)
  {
    if tables == [] then None
    else if k in tables[|tables| - 1].entries then Some(tables[|tables| - 1].entries[k])
    else LastEntry(tables[..|tables| - 1], k)
  }

  // The fold is a table unless the last section is not one, and each key comes from the
  // highest-priority table after the last section that is not.
  lemma {:induction false} FoldClosedForm(sections: seq<Toml>, k: string)
    ensures sections != [] && !sections[|sections| - 1].Table? ==> Fold(sections) == sections[|sections| - 1]
    ensures sections == [] || sections[|sections| - 1].Table? ==> Fold(sections).Table?
    ensures Entry(Fold(sections), k) == LastEntry(TableSuffix(sections), k)
  {
    if sections != [] && sections[|sections| - 1].Table? {
      var low := sections[..|sections| - 1];
      FoldClosedForm(low, k);
      var suffix := TableSuffix(sections);
      assert suffix[..|suffix| - 1] == TableSuffix(low);
    }
  }

  // The type's default is used exactly when no section holds anything: the last one found, if
  // any, is a table, and so is every section that could still count, and all of those are empty.
  lemma {:induction false} DefaultIffNothingHeld(docs: seq<Doc>, key: string)
    requires Sections(docs, Split(key, '.')).Ok?
    ensures var sections := Sections(docs, Split(key, '.')).value;
      Loaded(docs, key) == Ok(UseDefault) <==>
        && (sections == [] || sections[|sections| - 1].Table?)
        && AllEmpty(TableSuffix(sections))
  {
    FoldEmptyIff(Sections(docs, Split(key, '.')).value);
  }

  predicate AllEmpty(tables: seq<Toml>) {
    forall i :: 0 <= i < |tables| ==> tables[i] == EMPTY_TABLE
  }

  lemma {:induction false} FoldEmptyIff(sections: seq<Toml>)
    ensures Fold(sections) == EMPTY_TABLE <==>
      (sections == [] || sections[|sections| - 1].Table?) && AllEmpty(TableSuffix(sections))
    ensures sections == [] || sections[|sections| - 1].Table? <==> Fold(sections).Table?
  {
    if sections != [] && sections[|sections| - 1].Table? {
      var low, top := sections[..|sections| - 1], sections[|sections| - 1];
      FoldEmptyIff(low);
      AllEmptyPlus(TableSuffix(low), top);
      if Fold(low).Table? {
        UnionEmptyIff(Fold(low).entries, top.entries);
      }
    }
  }

  lemma {:induction false} AllEmptyPlus(tables: seq<Toml>, t: Toml)
    ensures AllEmpty(tables + [t]) <==> AllEmpty(tables) && t == EMPTY_TABLE
  {
    if AllEmpty(tables + [t]) {
      assert (tables + [t])[|tables|] == t;
      assert forall i :: 0 <= i < |tables| ==> tables[i] == (tables + [t])[i];
    }
  }

  lemma {:induction false} UnionEmptyIff(m: map<string, Toml>, n: map<string, Toml>)
    ensures m + n == map[] <==> m == map[] && n == map[]
  {}

  // ---- A section of a section ----

  lemma {:induction false} WalkConcat(val: Toml, p: seq<string>, q: seq<string>)
    ensures Walk(val, p + q) ==
      if Walk(val, p).None? then None else Walk(Walk(val, p).value, q)
  {
    if p == [] {
      assert p + q == q;
    } else if val.Table? && p[0] in val.entries {
      assert (p + q)[1..] == p[1..] + q;
      WalkConcat(val.entries[p[0]], p[1..], q);
    }
  }

  // What each of the sections holds along a path, lowest priority first.
  function Held(sections: seq<Toml>, path: seq<string>): seq<Toml> {
    if sections == [] then []
    else
      var before := Held(sections[..|sections| - 1], path);
      var found := Walk(sections[|sections| - 1], path);
      if found.Some? then before + [found.value] else before
  }

  lemma {:induction false} SubsectionsAreHeld(docs: seq<Doc>, parts: seq<string>, path: seq<string>)
    ensures Sections(docs, parts).Ok? <==> Sections(docs, parts + path).Ok?
    ensures Sections(docs, parts).Ok? ==>
      Sections(docs, parts + path) == Ok(Held(Sections(docs, parts).value, path))
  {
    if docs == [] {
    } else {
      var n := |docs| - 1;
      SubsectionsAreHeld(docs[..n], parts, path);
      if docs[n].Doc? {
        WalkConcat(docs[n].root, parts, path);
        var found := Walk(docs[n].root, parts);
        if found.Some? && Sections(docs[..n], parts).Ok? {
          HeldOneMore(Sections(docs[..n], parts).value, found.value, path);
        }
      }
    }
  }

  lemma {:induction false} HeldOneMore(sections: seq<Toml>, v: Toml, path: seq<string>)
    ensures Held(sections + [v], path) ==
      if Walk(v, path).Some? then Held(sections, path) + [Walk(v, path).value] else Held(sections, path)
  {
    assert (sections + [v])[..|sections|] == sections;
  }

  // What the merged section holds along a path, the last section with anything there holds too.
  lemma {:induction false} MergedIsLastHeld(sections: seq<Toml>, path: seq<string>)
    requires path != []
    ensures var held, merged := Held(sections, path), Walk(Fold(sections), path);
      merged.Some? ==> held != [] && held[|held| - 1] == merged.value
  {
    if sections == [] {
    } else {
      MergedIsLastHeld(sections[..|sections| - 1], path);
    }
  }

  // Along one key, merged tables hold whatever any of them does.
  lemma {:induction false} OneKeyIsMerged(sections: seq<Toml>, path: seq<string>)
    requires AllTables(sections) && |path| == 1
    ensures Fold(sections).Table?
    ensures Walk(Fold(sections), path).None? ==> Held(sections, path) == []
  {
    if sections == [] {
    } else {
      var low, top := sections[..|sections| - 1], sections[|sections| - 1];
      OneKeyIsMerged(low, path);
      assert path == [path[0]];
      WalkOne(Fold(low), path[0]);
      WalkOne(top, path[0]);
      WalkOne(Fold(sections), path[0]);
    }
  }

  lemma {:induction false} HasEntryIff(tables: seq<Toml>, k: string)
    requires AllTables(tables)
    ensures LastEntry(tables, k).Some? <==> exists i :: 0 <= i < |tables| && k in tables[i].entries
  {
    if tables == [] {
    } else {
      var n := |tables| - 1;
      HasEntryIff(tables[..n], k);
      assert forall i :: 0 <= i < n ==> tables[..n][i] == tables[i];
    }
  }

  // A fold is its last section exactly when the tables below it have no keys of their own.
  predicate AddsNothing(tables: seq<Toml>, v: Toml)
    requires AllTables(tables)
  {
    v.Table? ==> forall i :: 0 <= i < |tables| ==> tables[i].entries.Keys <= v.entries.Keys
  }

  lemma {:induction false} FoldIsLastIff(sections: seq<Toml>)
    requires sections != []
    ensures var v := sections[|sections| - 1];
      Fold(sections) == v <==> AddsNothing(TableSuffix(sections), v)
  {
    var v, suffix := sections[|sections| - 1], TableSuffix(sections);
    FoldClosedForm(sections, "");
    if v.Table? {
      if AddsNothing(suffix, v) {
        forall k: string ensures Entry(Fold(sections), k) == Entry(v, k) {
          FoldClosedForm(sections, k);
          NoNewEntry(suffix, v, k);
        }
        SameEntries(Fold(sections), v);
      } else {
        var i :| 0 <= i < |suffix| && !(suffix[i].entries.Keys <= v.entries.Keys);
        var k :| k in suffix[i].entries && k !in v.entries;
        HasEntryIff(suffix, k);
        FoldClosedForm(sections, k);
      }
    }
  }

  lemma {:induction false} NoNewEntry(tables: seq<Toml>, v: Toml, k: string)
    requires AllTables(tables) && v.Table? && tables != [] && tables[|tables| - 1] == v && AddsNothing(tables, v)
    ensures LastEntry(tables, k) == Entry(v, k)
  {
    HasEntryIff(tables, k);
  }

  lemma {:induction false} SameEntries(a: Toml, b: Toml)
    requires a.Table? && b.Table? && forall k: string :: Entry(a, k) == Entry(b, k)
    ensures a == b
  {
    forall k: string ensures k in a.entries <==> k in b.entries {
      assert Entry(a, k) == Entry(b, k);
    }
    forall k | k in a.entries ensures a.entries[k] == b.entries[k] {
      assert Entry(a, k) == Entry(b, k);
    }
    assert a.entries == b.entries;
  }

  // The merged section under a key.
  function Parent(docs: seq<Doc>, a: string): Toml
    requires Sections(docs, Split(a, '.')).Ok?
  {
    Fold(Sections(docs, Split(a, '.')).value)
  }

  // A section under a longer key is at least what the merged parent holds there: the very value
  // when that is not a table, and otherwise a table with all its entries. Where every file that
  // has the parent has a table, one key further it is empty when the parent holds nothing.
  lemma {:induction false} SubsectionRefinesParent(docs: seq<Doc>, a: string, c: string)
    requires Sections(docs, Split(a, '.')).Ok?
    ensures Sections(docs, Split(a + "." + c, '.')).Ok?
    ensures var entry, child := Walk(Parent(docs, a), Split(c, '.')), Parent(docs, a + "." + c);
      && (entry.Some? && !entry.value.Table? ==> child == entry.value)
      && (entry.Some? && entry.value.Table? ==>
            child.Table? && forall k :: k in entry.value.entries ==> Entry(child, k) == Some(entry.value.entries[k]))
      && (entry.None? && '.' !in c && AllTables(Sections(docs, Split(a, '.')).value) ==> child == EMPTY_TABLE)
  {
    SubsectionIsHeld(docs, a, c);
    var sections := Sections(docs, Split(a, '.')).value;
    var held, entry := Held(sections, Split(c, '.')), Walk(Parent(docs, a), Split(c, '.'));
    if entry.Some? {
      assert Fold(held) == Merge(Fold(held[..|held| - 1]), entry.value);
    } else if '.' !in c && AllTables(sections) {
      SplitPlain(c, '.');
      OneKeyIsMerged(sections, Split(c, '.'));
    }
  }

  lemma {:induction false} SubsectionIsHeld(docs: seq<Doc>, a: string, c: string)
    requires Sections(docs, Split(a, '.')).Ok?
    ensures var held := Held(Sections(docs, Split(a, '.')).value, Split(c, '.'));
      var entry := Walk(Parent(docs, a), Split(c, '.'));
      && Sections(docs, Split(a + "." + c, '.')) == Ok(held)
      && (entry.Some? ==> held != [] && held[|held| - 1] == entry.value)
  {
    SplitConcat(a, c, '.');
    SubsectionsAreHeld(docs, Split(a, '.'), Split(c, '.'));
    MergedIsLastHeld(Sections(docs, Split(a, '.')).value, Split(c, '.'));
  }

  // When the two agree, in any files that can be read: a held value is the loaded section exactly
  // when no table merged below it has a key it lacks; and nothing is loaded for nothing held
  // exactly when no section still counted under the longer key holds anything.
  lemma {:induction false} SubsectionIsParentIff(docs: seq<Doc>, a: string, c: string)
    requires Sections(docs, Split(a, '.')).Ok?
    ensures Sections(docs, Split(a + "." + c, '.')).Ok?
    ensures var entry, child := Walk(Parent(docs, a), Split(c, '.')), Parent(docs, a + "." + c);
      var held := Sections(docs, Split(a + "." + c, '.')).value;
      child == entry.GetOr(EMPTY_TABLE) <==>
        if entry.Some? then AddsNothing(TableSuffix(held), entry.value)
        else (held == [] || held[|held| - 1].Table?) && AllEmpty(TableSuffix(held))
  {
    SubsectionIsHeld(docs, a, c);
    var held := Held(Sections(docs, Split(a, '.')).value, Split(c, '.'));
    if Walk(Parent(docs, a), Split(c, '.')).Some? {
      FoldIsLastIff(held);
    } else {
      FoldEmptyIff(held);
    }
  }

  // Inputs on which they differ: the higher file's `b` hides the lower one's in the merged `a`,
  // but not in `a.b`.
  function OneKey(k: string, v: Toml): Toml {
    Table(map[k := v])
  }

  function Shadowed(low: Toml, high: Toml): seq<Doc> {
    [Doc(OneKey("a", OneKey("b", low)))] + [Doc(OneKey("a", OneKey("b", high)))]
  }

  lemma {:induction false} ShadowedEntryComesBack(low: Toml, high: Toml)
    requires low.Table? && high.Table?
    ensures var docs := Shadowed(low, high);
      && Sections(docs, Split("a", '.')).Ok? && Sections(docs, Split("a.b", '.')).Ok?
      && Walk(Parent(docs, "a"), ["b"]) == Some(high)
      && Parent(docs, "a.b") == Table(low.entries + high.entries)
    ensures low == OneKey("x", Leaf("1")) && high == OneKey("y", Leaf("2")) ==>
      Parent(Shadowed(low, high), "a.b") != high
  {
    var docs, l, h := Shadowed(low, high), OneKey("b", low), OneKey("b", high);
    SplitPlain("a", '.');
    SplitPlain("b", '.');
    TwoSections("a", l, h);
    WalkOne(Parent(docs, "a"), "b");
    SplitConcat("a", "b", '.');
    assert "a" + "." + "b" == "a.b";
    SubsectionsAreHeld(docs, ["a"], ["b"]);
    TwoHeld(l, h, "b");
    if low == OneKey("x", Leaf("1")) && high == OneKey("y", Leaf("2")) {
      assert "x" in low.entries + high.entries && "x" !in high.entries;
    }
  }

  // And the other way to differ: the higher file's `a` is not a table, so the merged `a` holds
  // nothing at `b`, but the lower file's `a.b` is still loaded.
  function Replaced(low: Toml, text: string): seq<Doc> {
    [Doc(OneKey("a", OneKey("b", low)))] + [Doc(OneKey("a", Leaf(text)))]
  }

  lemma {:induction false} ReplacedParentKeepsChild(low: Toml, text: string)
    requires low.Table? && low != EMPTY_TABLE
    ensures var docs := Replaced(low, text);
      && Sections(docs, Split("a", '.')).Ok? && Sections(docs, Split("a.b", '.')).Ok?
      && Parent(docs, "a") == Leaf(text) && Walk(Parent(docs, "a"), ["b"]).None?
      && Parent(docs, "a.b") == low != EMPTY_TABLE
  {
    var docs, l, h := Replaced(low, text), OneKey("b", low), Leaf(text);
    SplitPlain("a", '.');
    SplitPlain("b", '.');
    SectionsInTwo("a", l, h);
    LastLeafWins(l, text);
    SplitConcat("a", "b", '.');
    assert "a" + "." + "b" == "a.b";
    SubsectionsAreHeld(docs, ["a"], ["b"]);
    HeldBelowLeaf("b", low, text);
    FoldOne(low);
  }

  lemma {:induction false} LastLeafWins(low: Toml, text: string)
    ensures Fold([low, Leaf(text)]) == Leaf(text)
    ensures Walk(Leaf(text), ["b"]).None?
  {}

  lemma {:induction false} HeldBelowLeaf(k: string, low: Toml, text: string)
    ensures Held([OneKey(k, low), Leaf(text)], [k]) == [low]
  {
    var l, h := OneKey(k, low), Leaf(text);
    WalkOne(l, k);
    HeldOneMore([], l, [k]);
    HeldOneMore([l], h, [k]);
    assert [] + [l] == [l] && [l] + [h] == [l, h] && [] + [low] == [low];
  }

  lemma {:induction false} FoldOne(t: Toml)
    requires t.Table?
    ensures Fold([t]) == t
  {
    assert [t][..0] == [] && map[] + t.entries == t.entries;
  }

  lemma {:induction false} TwoSections(k: string, low: Toml, high: Toml)
    requires low.Table? && high.Table?
    ensures Sections([Doc(OneKey(k, low))] + [Doc(OneKey(k, high))], [k]) == Ok([low, high])
    ensures Fold([low, high]) == Table(low.entries + high.entries)
  {
    SectionsInTwo(k, low, high);
    FoldTwo(low, high);
  }

  lemma {:induction false} SectionsInTwo(k: string, low: Toml, high: Toml)
    ensures Sections([Doc(OneKey(k, low))] + [Doc(OneKey(k, high))], [k]) == Ok([low, high])
  {
    var d, e := Doc(OneKey(k, low)), Doc(OneKey(k, high));
    WalkOne(d.root, k);
    WalkOne(e.root, k);
    SectionsOneMore([], low, d, [k]);
    assert [] + [d] == [d] && [] + [low] == [low];
    assert Sections([d], [k]).value == [low];
    SectionsOneMore([d], high, e, [k]);
    assert Sections([d] + [e], [k]).value == [low] + [high] == [low, high];
  }

  lemma {:induction false} SectionsOneMore(docs: seq<Doc>, found: Toml, d: Doc, parts: seq<string>)
    requires Sections(docs, parts).Ok? && d.Doc? && Walk(d.root, parts) == Some(found)
    ensures Sections(docs + [d], parts) == Ok(Sections(docs, parts).value + [found])
  {
    assert (docs + [d])[..|docs|] == docs;
  }

  lemma {:induction false} FoldTwo(low: Toml, high: Toml)
    requires low.Table? && high.Table?
    ensures Fold([low, high]) == Table(low.entries + high.entries)
  {
    assert [low, high][..1] == [low] && [low][..0] == [];
    assert Fold([low]) == Table(map[] + low.entries) == low;
  }

  lemma {:induction false} TwoHeld(low: Toml, high: Toml, k: string)
    requires Entry(low, k).Some? && Entry(high, k).Some?
    requires Entry(low, k).value.Table? && Entry(high, k).value.Table?
    ensures Fold(Held([low, high], [k])) == Table(Entry(low, k).value.entries + Entry(high, k).value.entries)
  {
    assert [low, high][..1] == [low] && [low][..0] == [];
    WalkOne(low, k);
    WalkOne(high, k);
    assert Held([low], [k]) == [] + [Entry(low, k).value];
    assert Held([low, high], [k]) == [Entry(low, k).value, Entry(high, k).value];
    FoldTwo(Entry(low, k).value, Entry(high, k).value);
  }

  lemma {:induction false} WalkOne(val: Toml, b: string)
    ensures Walk(val, [b]) == Entry(val, b)
  {}
}
