/** The eager-load tree of `with(...paths)`: dotted relation paths merged
    into a tree in which siblings have distinct names (`generateRelations`
    of the query builder). */
module RelationPaths {
  import opened Wrappers
  import opened Strings

  datatype RelationNode = RelationNode(name: string, relations: seq<RelationNode>)

  /** A top-level entry while the paths are collected: its name and the
      remaining segments of every path filed under it. */
  datatype Entry = Entry(name: string, rest: seq<seq<string>>)

  /** Every path has a first segment (`split` never yields an empty list). */
  predicate NonEmptyPaths(paths: seq<seq<string>>)
  {
    forall i :: 0 <= i < |paths| ==> paths[i] != []
  }

  /** `result.find(item => item.name === name)`, as the index found. */
  function FindEntry(entries: seq<Entry>, name: string): (r: int)
    ensures -1 <= r < |entries|
    ensures r >= 0 ==> entries[r].name == name && forall j :: 0 <= j < r ==> entries[j].name != name
    ensures r == -1 <==> forall j :: 0 <= j < |entries| ==> entries[j].name != name
    decreases |entries|
  {
    if entries == [] then -1
    else if entries[0].name == name then 0
    else
      var k := FindEntry(entries[1..], name);
      if k == -1 then -1 else k + 1
  }

  /** One `forEach` step: an existing entry collects the remaining
      segments, if there are any; a new name is appended. */
  function AddPath(entries: seq<Entry>, path: seq<string>): seq<Entry>
    requires path != []
  {
    var k := FindEntry(entries, path[0]);
    if k >= 0 then
      if |path| > 1 then entries[k := Entry(path[0], entries[k].rest + [path[1..]])] else entries
    else entries + [Entry(path[0], if |path| > 1 then [path[1..]] else [])]
  }

  function Entries(paths: seq<seq<string>>): seq<Entry>
    requires NonEmptyPaths(paths)
    decreases |paths|
  {
    if paths == [] then [] else AddPath(Entries(paths[..|paths| - 1]), paths[|paths| - 1])
  }

  function MaxLength(paths: seq<seq<string>>): nat
    decreases |paths|
  {
    if paths == [] then 0
    else
      var m := MaxLength(paths[..|paths| - 1]);
      if |paths[|paths| - 1]| > m then |paths[|paths| - 1]| else m
  }

  lemma {:induction false} MaxLengthBound(paths: seq<seq<string>>, n: nat)
    requires forall i :: 0 <= i < |paths| ==> |paths[i]| <= n
    ensures MaxLength(paths) <= n
    decreases |paths|
  {
    if paths != [] {
      MaxLengthBound(paths[..|paths| - 1], n);
    }
  }

  lemma MaxLengthBelow(paths: seq<seq<string>>, n: nat)
    requires forall i :: 0 <= i < |paths| ==> |paths[i]| < n
    ensures paths != [] ==> MaxLength(paths) < n
  {
    if paths != [] {
      assert |paths[0]| < n;
      MaxLengthBound(paths, n - 1);
    }
  }

  lemma {:induction false} MaxLengthIsMax(paths: seq<seq<string>>)
    ensures forall i :: 0 <= i < |paths| ==> |paths[i]| <= MaxLength(paths)
    decreases |paths|
  {
    if paths != [] {
      MaxLengthIsMax(paths[..|paths| - 1]);
      assert forall i :: 0 <= i < |paths| - 1 ==> paths[i] == paths[..|paths| - 1][i];
    }
  }

  /** Every collected rest is a non-empty proper suffix, shorter than `n`. */
  predicate ShorterThan(entries: seq<Entry>, n: nat)
  {
    forall i, j :: 0 <= i < |entries| && 0 <= j < |entries[i].rest| ==>
      entries[i].rest[j] != [] && |entries[i].rest[j]| < n
  }

  lemma {:induction false} EntriesShorter(paths: seq<seq<string>>)
    requires NonEmptyPaths(paths)
    ensures ShorterThan(Entries(paths), MaxLength(paths))
    decreases |paths|
  {
    if paths != [] {
      var init := paths[..|paths| - 1];
      var path := paths[|paths| - 1];
      EntriesShorter(init);
      MaxLengthIsMax(paths);
      var es := Entries(init);
      var r := AddPath(es, path);
      assert ShorterThan(es, MaxLength(paths));
      forall i, j | 0 <= i < |r| && 0 <= j < |r[i].rest|
        ensures r[i].rest[j] != [] && |r[i].rest[j]| < MaxLength(paths)
      {
        if i < |es| && r[i] != es[i] {
          if j < |es[i].rest| { assert r[i].rest[j] == es[i].rest[j]; }
          else { assert r[i].rest[j] == path[1..]; }
        } else if i >= |es| {
          assert r[i].rest[j] == path[1..];
        }
      }
    }
  }

  /** `result.map(item => ({ name, relations: generateRelations(item.relations) }))`. */
  function Generate(paths: seq<seq<string>>): seq<RelationNode>
    requires NonEmptyPaths(paths)
    decreases MaxLength(paths), 1
  {
    EntriesShorter(paths);
    Nodes(Entries(paths), MaxLength(paths))
  }

  function Nodes(entries: seq<Entry>, n: nat): (r: seq<RelationNode>)
    requires ShorterThan(entries, n)
    ensures |r| == |entries|
    decreases n, 0, |entries|
  {
    if entries == [] then []
    else
      var rest := entries[0].rest;
      MaxLengthBelow(rest, n);
      assert ShorterThan(entries[1..], n) by {
        forall i, j | 0 <= i < |entries[1..]| && 0 <= j < |entries[1..][i].rest|
          ensures entries[1..][i].rest[j] != [] && |entries[1..][i].rest[j]| < n
        {
          assert entries[1..][i] == entries[i + 1];
        }
      }
      [RelationNode(entries[0].name, if rest == [] then [] else Generate(rest))] + Nodes(entries[1..], n)
  }

  /** Each node is the entry's name over the tree of its collected rests. */
  lemma {:induction false} NodesAt(entries: seq<Entry>, n: nat)
    requires ShorterThan(entries, n)
    ensures forall i :: 0 <= i < |entries| ==>
      Nodes(entries, n)[i] == RelationNode(entries[i].name, Generate(entries[i].rest))
    decreases |entries|
  {
    if entries != [] {
      assert ShorterThan(entries[1..], n) by {
        forall i, j | 0 <= i < |entries[1..]| && 0 <= j < |entries[1..][i].rest|
          ensures entries[1..][i].rest[j] != [] && |entries[1..][i].rest[j]| < n
        {
          assert entries[1..][i] == entries[i + 1];
        }
      }
      NodesAt(entries[1..], n);
      assert Generate([]) == [];
      forall i | 1 <= i < |entries|
        ensures Nodes(entries, n)[i] == RelationNode(entries[i].name, Generate(entries[i].rest))
      {
        assert Nodes(entries, n)[i] == Nodes(entries[1..], n)[i - 1];
        assert entries[1..][i - 1] == entries[i];
      }
    }
  }

  /** The names along one level of a tree. */
  function Names(nodes: seq<RelationNode>): seq<string>
  {
    seq(|nodes|, i requires 0 <= i < |nodes| => nodes[i].name)
  }

  predicate Distinct(names: seq<string>)
  {
    forall i, j :: 0 <= i < j < |names| ==> names[i] != names[j]
  }

  /** No two siblings share a name, at any level below this node. */
  predicate NodeUnique(n: RelationNode)
    decreases n
  {
    Distinct(Names(n.relations)) && forall i :: 0 <= i < |n.relations| ==> NodeUnique(n.relations[i])
  }

  predicate TreeUnique(nodes: seq<RelationNode>)
  {
    Distinct(Names(nodes)) && forall i :: 0 <= i < |nodes| ==> NodeUnique(nodes[i])
  }

  function EntryNames(entries: seq<Entry>): seq<string>
  {
    seq(|entries|, i requires 0 <= i < |entries| => entries[i].name)
  }

  /** The first segments of the paths. */
  function Heads(paths: seq<seq<string>>): seq<string>
    requires NonEmptyPaths(paths)
  {
    seq(|paths|, i requires 0 <= i < |paths| => paths[i][0])
  }

  /** Each name at its first occurrence, in order. */
  function FirstOccurrences(names: seq<string>): seq<string>
    decreases |names|
  {
    if names == [] then []
    else
      var d := FirstOccurrences(names[..|names| - 1]);
      if names[|names| - 1] in d then d else d + [names[|names| - 1]]
  }

  /** The remaining segments of the longer paths that start with `name`,
      in input order. */
  function Tails(paths: seq<seq<string>>, name: string): seq<seq<string>>
    requires NonEmptyPaths(paths)
    decreases |paths|
  {
    if paths == [] then []
    else
      var p := paths[|paths| - 1];
      Tails(paths[..|paths| - 1], name) + if p[0] == name && |p| > 1 then [p[1..]] else []
  }

  /** One collecting step, entry by entry: names keep their places, a new
      name goes last, and the path's rest is filed under its own name. */
  lemma AddPathEffect(es: seq<Entry>, path: seq<string>)
    requires path != [] && Distinct(EntryNames(es))
    ensures var r := AddPath(es, path);
      (EntryNames(r) == if FindEntry(es, path[0]) >= 0 then EntryNames(es) else EntryNames(es) + [path[0]]) &&
      |r| >= |es| &&
      forall i :: 0 <= i < |r| ==>
        r[i].rest == (if i < |es| then es[i].rest else []) +
                     (if r[i].name == path[0] && |path| > 1 then [path[1..]] else [])
  {
    AddPathNames(es, path);
    AddPathRests(es, path);
  }

  lemma AddPathNames(es: seq<Entry>, path: seq<string>)
    requires path != []
    ensures var r := AddPath(es, path);
      (EntryNames(r) == if FindEntry(es, path[0]) >= 0 then EntryNames(es) else EntryNames(es) + [path[0]]) &&
      |r| >= |es|
  {
    var r := AddPath(es, path);
    if FindEntry(es, path[0]) >= 0 {
      assert EntryNames(r) == EntryNames(es);
    } else {
      assert EntryNames(r) == EntryNames(es) + [path[0]];
    }
  }

  lemma AddPathRests(es: seq<Entry>, path: seq<string>)
    requires path != [] && Distinct(EntryNames(es))
    ensures var r := AddPath(es, path);
      forall i :: 0 <= i < |r| ==>
        r[i].rest == (if i < |es| then es[i].rest else []) +
                     (if r[i].name == path[0] && |path| > 1 then [path[1..]] else [])
  {
    FoundIsOnly(es, path[0]);
  }

  /** With distinct names, the entry found is the only one of that name. */
  lemma FoundIsOnly(es: seq<Entry>, name: string)
    requires Distinct(EntryNames(es))
    ensures forall i :: 0 <= i < |es| && es[i].name == name ==> i == FindEntry(es, name)
  {
    var k := FindEntry(es, name);
    forall i | 0 <= i < |es| && es[i].name == name ensures i == k {
      assert EntryNames(es)[i] == name;
      assert k >= 0;
      assert EntryNames(es)[k] == name;
    }
  }

  /** Collecting keeps one entry per name, in first-occurrence order. */
  lemma {:induction false} EntryNamesSpec(paths: seq<seq<string>>)
    requires NonEmptyPaths(paths)
    ensures EntryNames(Entries(paths)) == FirstOccurrences(Heads(paths))
    decreases |paths|
  {
    if paths != [] {
      EntryNamesSpec(paths[..|paths| - 1]);
      EntryNamesStep(paths);
    }
  }

  /** The last path adds its head to the names iff it is new. */
  lemma EntryNamesStep(paths: seq<seq<string>>)
    requires NonEmptyPaths(paths) && paths != []
    requires EntryNames(Entries(paths[..|paths| - 1])) == FirstOccurrences(Heads(paths[..|paths| - 1]))
    ensures EntryNames(Entries(paths)) == FirstOccurrences(Heads(paths))
  {
    var init := paths[..|paths| - 1];
    var path := paths[|paths| - 1];
    var es := Entries(init);
    assert Entries(paths) == AddPath(es, path);
    HeadsStep(paths);
    AddPathNames(es, path);
    FindEntryIn(es, path[0]);
  }

  /** One more path adds its head to the first occurrences iff it is new. */
  lemma HeadsStep(paths: seq<seq<string>>)
    requires NonEmptyPaths(paths) && paths != []
    ensures var d := FirstOccurrences(Heads(paths[..|paths| - 1]));
      var h := paths[|paths| - 1][0];
      FirstOccurrences(Heads(paths)) == if h in d then d else d + [h]
  {
    var init := paths[..|paths| - 1];
    assert Heads(paths)[..|paths| - 1] == Heads(init);
    assert Heads(paths)[|paths| - 1] == paths[|paths| - 1][0];
  }

  /** One more path files its rest under its own head only. */
  lemma TailsStep(paths: seq<seq<string>>, name: string)
    requires NonEmptyPaths(paths) && paths != []
    ensures var p := paths[|paths| - 1];
      Tails(paths, name) == Tails(paths[..|paths| - 1], name) + if p[0] == name && |p| > 1 then [p[1..]] else []
  {
  }

  lemma FindEntryIn(es: seq<Entry>, name: string)
    ensures FindEntry(es, name) >= 0 <==> name in EntryNames(es)
  {
    var k := FindEntry(es, name);
    if k >= 0 {
      assert EntryNames(es)[k] == name;
    }
    if name in EntryNames(es) {
      var j :| 0 <= j < |EntryNames(es)| && EntryNames(es)[j] == name;
      assert es[j].name == name;
    }
  }

  /** Entries keep their names and places; one is appended only for a new name. */
  lemma AddPathShape(es: seq<Entry>, path: seq<string>)
    requires path != []
    ensures var r := AddPath(es, path);
      |es| <= |r| <= |es| + 1 &&
      (forall i :: 0 <= i < |es| ==> r[i].name == es[i].name) &&
      (|r| > |es| ==> FindEntry(es, path[0]) < 0 && r[|es|].name == path[0])
  {
  }

  /** Every entry holds the rests filed under its name. */
  predicate RestsFiled(paths: seq<seq<string>>)
    requires NonEmptyPaths(paths)
  {
    forall i :: 0 <= i < |Entries(paths)| ==> Entries(paths)[i].rest == Tails(paths, Entries(paths)[i].name)
  }

  /** ... and files under each name every longer path's remaining segments. */
  lemma EntriesSpec(paths: seq<seq<string>>)
    requires NonEmptyPaths(paths)
    ensures EntryNames(Entries(paths)) == FirstOccurrences(Heads(paths))
    ensures forall i :: 0 <= i < |Entries(paths)| ==>
      Entries(paths)[i].rest == Tails(paths, Entries(paths)[i].name)
  {
    EntryNamesSpec(paths);
    EntriesRests(paths);
  }

  lemma {:induction false} EntriesRests(paths: seq<seq<string>>)
    requires NonEmptyPaths(paths)
    ensures RestsFiled(paths)
    decreases |paths|
  {
    if paths != [] {
      EntriesRests(paths[..|paths| - 1]);
      forall i | 0 <= i < |Entries(paths)|
        ensures Entries(paths)[i].rest == Tails(paths, Entries(paths)[i].name)
      {
        EntriesRestsStep(paths, i);
      }
    }
  }

  /** The last path's rest lands under its own head and nowhere else. */
  lemma EntriesRestsStep(paths: seq<seq<string>>, i: int)
    requires NonEmptyPaths(paths) && paths != []
    requires RestsFiled(paths[..|paths| - 1])
    requires 0 <= i < |Entries(paths)|
    ensures Entries(paths)[i].rest == Tails(paths, Entries(paths)[i].name)
  {
    var init := paths[..|paths| - 1];
    var path := paths[|paths| - 1];
    var es := Entries(init);
    var r := AddPath(es, path);
    assert Entries(paths) == r;
    EntriesDistinct(init);
    AddPathRests(es, path);
    AddPathShape(es, path);
    TailsStep(paths, r[i].name);
    if i < |es| {
      assert es[i].rest == Tails(init, es[i].name);
    } else {
      NewHeadNoTails(init, path[0]);
    }
  }

  lemma EntriesDistinct(paths: seq<seq<string>>)
    requires NonEmptyPaths(paths)
    ensures Distinct(EntryNames(Entries(paths)))
  {
    EntryNamesSpec(paths);
    FirstOccurrencesDistinct(Heads(paths));
  }

  /** A head without an entry has collected no rests. */
  lemma NewHeadNoTails(paths: seq<seq<string>>, name: string)
    requires NonEmptyPaths(paths)
    requires FindEntry(Entries(paths), name) < 0
    ensures Tails(paths, name) == []
  {
    EntryNamesSpec(paths);
    FindEntryIn(Entries(paths), name);
    TailsAbsent(paths, name);
  }

  /** A name no path starts with collects nothing. */
  lemma {:induction false} TailsAbsent(paths: seq<seq<string>>, name: string)
    requires NonEmptyPaths(paths)
    requires name !in FirstOccurrences(Heads(paths))
    ensures Tails(paths, name) == []
    decreases |paths|
  {
    if paths != [] {
      var init := paths[..|paths| - 1];
      assert Heads(paths)[..|paths| - 1] == Heads(init);
      TailsAbsent(init, name);
      OccursInFirstOccurrences(Heads(paths), |paths| - 1);
    }
  }

  lemma {:induction false} OccursInFirstOccurrences(names: seq<string>, i: int)
    requires 0 <= i < |names|
    ensures names[i] in FirstOccurrences(names)
    decreases |names|
  {
    var init := names[..|names| - 1];
    if i < |names| - 1 {
      OccursInFirstOccurrences(init, i);
      assert init[i] == names[i];
    }
  }

  lemma {:induction false} FirstOccurrencesDistinct(names: seq<string>)
    ensures Distinct(FirstOccurrences(names))
    decreases |names|
  {
    if names != [] {
      FirstOccurrencesDistinct(names[..|names| - 1]);
    }
  }

  lemma NamesOfNodes(entries: seq<Entry>, n: nat)
    requires ShorterThan(entries, n)
    ensures Names(Nodes(entries, n)) == EntryNames(entries)
  {
    NodesAt(entries, n);
  }

  /** Top-level nodes come in the order of each name's first occurrence;
      the children of a node are the tree of the rest of every path that
      starts with its name. */
  lemma GenerateSpec(paths: seq<seq<string>>)
    requires NonEmptyPaths(paths)
    ensures Names(Generate(paths)) == FirstOccurrences(Heads(paths))
    ensures forall i :: 0 <= i < |Generate(paths)| ==>
      NonEmptyPaths(Tails(paths, Generate(paths)[i].name)) &&
      Generate(paths)[i].relations == Generate(Tails(paths, Generate(paths)[i].name))
  {
    var es := Entries(paths);
    EntriesSpec(paths);
    EntriesShorter(paths);
    NamesOfNodes(es, MaxLength(paths));
    NodesAt(es, MaxLength(paths));
    var r := Generate(paths);
    forall i | 0 <= i < |r|
      ensures NonEmptyPaths(Tails(paths, r[i].name)) && r[i].relations == Generate(Tails(paths, r[i].name))
    {
      assert r[i].name == es[i].name;
      assert es[i].rest == Tails(paths, es[i].name);
    }
  }

  /** No duplicate names among siblings, at any level. */
  lemma {:induction false} GenerateUnique(paths: seq<seq<string>>)
    requires NonEmptyPaths(paths)
    ensures TreeUnique(Generate(paths))
    decreases MaxLength(paths)
  {
    var es := Entries(paths);
    EntriesSpec(paths);
    EntriesShorter(paths);
    FirstOccurrencesDistinct(Heads(paths));
    NamesOfNodes(es, MaxLength(paths));
    NodesAt(es, MaxLength(paths));
    var r := Generate(paths);
    forall i | 0 <= i < |r| ensures NodeUnique(r[i]) {
      var rest := es[i].rest;
      assert forall j :: 0 <= j < |rest| ==> |rest[j]| <= MaxLength(paths) - 1;
      MaxLengthBound(rest, MaxLength(paths) - 1);
      GenerateUnique(rest);
      assert r[i] == RelationNode(es[i].name, Generate(rest));
    }
  }

  /** A bare name that already occurred adds nothing. */
  lemma RepeatedNameAddsNothing(paths: seq<seq<string>>, name: string)
    requires NonEmptyPaths(paths)
    requires exists i :: 0 <= i < |paths| && paths[i][0] == name
    ensures Generate(paths + [[name]]) == Generate(paths)
  {
    var i :| 0 <= i < |paths| && paths[i][0] == name;
    RepeatedEntries(paths, name, i);
    RepeatedMaxLength(paths, name, i);
  }

  lemma RepeatedEntries(paths: seq<seq<string>>, name: string, i: int)
    requires NonEmptyPaths(paths)
    requires 0 <= i < |paths| && paths[i][0] == name
    ensures NonEmptyPaths(paths + [[name]]) && Entries(paths + [[name]]) == Entries(paths)
  {
    var all := paths + [[name]];
    assert all[..|all| - 1] == paths;
    KnownHeadIsFound(paths, i);
  }

  lemma RepeatedMaxLength(paths: seq<seq<string>>, name: string, i: int)
    requires NonEmptyPaths(paths)
    requires 0 <= i < |paths|
    ensures MaxLength(paths + [[name]]) == MaxLength(paths)
  {
    var all := paths + [[name]];
    assert all[..|all| - 1] == paths;
    MaxLengthIsMax(paths);
    assert |paths[i]| >= 1;
    assert all[|all| - 1] == [name];
  }

  /** A name that heads some path has an entry. */
  lemma KnownHeadIsFound(paths: seq<seq<string>>, i: int)
    requires NonEmptyPaths(paths)
    requires 0 <= i < |paths|
    ensures FindEntry(Entries(paths), paths[i][0]) >= 0
  {
    EntryNamesSpec(paths);
    OccursInFirstOccurrences(Heads(paths), i);
    var j :| 0 <= j < |FirstOccurrences(Heads(paths))| && FirstOccurrences(Heads(paths))[j] == paths[i][0];
    assert EntryNames(Entries(paths))[j] == paths[i][0];
  }

  /** `with("chats", "chats.messages")` and `with("chats.messages")` give
      the same tree. */
  lemma PrefixMerges()
    ensures Generate([["chats"], ["chats", "messages"]]) == Generate([["chats", "messages"]])
    ensures Generate([["chats", "messages"]]) == [RelationNode("chats", [RelationNode("messages", [])])]
  {
    var both := [["chats"], ["chats", "messages"]];
    var one := [["chats", "messages"]];
    ChatsEntries();
    assert MaxLength(both) == 2 && MaxLength(one) == 2 by {
      assert both[..1] == [["chats"]] && one[..0] == [] && [["chats"]][..0] == [];
    }
    LeafTree("messages");
  }

  lemma ChatsEntries()
    ensures Entries([["chats"], ["chats", "messages"]]) == [Entry("chats", [["messages"]])]
    ensures Entries([["chats", "messages"]]) == [Entry("chats", [["messages"]])]
  {
    var both := [["chats"], ["chats", "messages"]];
    var one := [["chats", "messages"]];
    assert both[..1] == [["chats"]] && one[..0] == [] && [["chats"]][..0] == [];
    assert ["chats", "messages"][1..] == ["messages"];
    assert Entries([["chats"]]) == [Entry("chats", [])];
    assert FindEntry([Entry("chats", [])], "chats") == 0;
    assert [] + [["messages"]] == [["messages"]];
  }

  /** A single one-segment path gives one leaf. */
  lemma LeafTree(name: string)
    ensures Generate([[name]]) == [RelationNode(name, [])]
  {
    assert [[name]][..0] == [];
    assert Entries([[name]]) == [Entry(name, [])];
  }

  /** `result.find(...)` as a search loop. */
  method Find(entries: seq<Entry>, name: string) returns (k: int)
    ensures k == FindEntry(entries, name)
  {
    k := 0;
    while k < |entries| && entries[k].name != name
      invariant 0 <= k <= |entries|
      invariant forall j :: 0 <= j < k ==> entries[j].name != name
    {
      k := k + 1;
    }
    if k == |entries| {
      k := -1;
    }
  }

  /** The `forEach` loop of `generateRelations`: groups the paths by their first segment. */
  method CollectEntries(paths: seq<seq<string>>) returns (result: seq<Entry>)
    requires NonEmptyPaths(paths)
    ensures result == Entries(paths)
  {
    result := [];
    var i := 0;
    while i < |paths|
      invariant 0 <= i <= |paths|
      invariant result == Entries(paths[..i])
    {
      var items := paths[i];
      var name := items[0];
      items := items[1..];
      var k := Find(result, name);
      if k >= 0 {
        if |items| > 0 {
          result := result[k := Entry(name, result[k].rest + [items])];
        }
      } else {
        result := result + [Entry(name, if |items| > 0 then [items] else [])];
      }
      assert paths[..i + 1][..i] == paths[..i];
      i := i + 1;
    }
    assert paths[..|paths|] == paths;
  }

  /** `generateRelations` as written: collect the entries, then build each child tree recursively. */
  method GenerateRelations(paths: seq<seq<string>>) returns (nodes: seq<RelationNode>)
    requires NonEmptyPaths(paths)
    ensures nodes == Generate(paths)
    decreases MaxLength(paths)
  {
    var result := CollectEntries(paths);
    EntriesShorter(paths);
    NodesAt(result, MaxLength(paths));
    nodes := [];
    var j := 0;
    while j < |result|
      invariant 0 <= j <= |result|
      invariant nodes == Generate(paths)[..j]
    {
      var rest := result[j].rest;
      assert forall t :: 0 <= t < |rest| ==> |rest[t]| <= MaxLength(paths) - 1;
      MaxLengthBound(rest, MaxLength(paths) - 1);
      var children := GenerateRelations(rest);
      nodes := nodes + [RelationNode(result[j].name, children)];
      assert Generate(paths)[..j + 1] == Generate(paths)[..j] + [Generate(paths)[j]];
      j := j + 1;
    }
  }

  /** The first top-level name that the model does not declare. */
  function FirstUndeclared(nodes: seq<RelationNode>, declared: seq<string>): (r: Option<string>)
    ensures r.None? <==> forall i :: 0 <= i < |nodes| ==> nodes[i].name in declared
    ensures r.Some? ==> exists i :: 0 <= i < |nodes| && nodes[i].name == r.value && r.value !in declared &&
                          forall j :: 0 <= j < i ==> nodes[j].name in declared
  {
    if nodes == [] then None
    else if nodes[0].name !in declared then Some(nodes[0].name)
    else
      var r := FirstUndeclared(nodes[1..], declared);
      if r.Some? then
        var i :| 0 <= i < |nodes[1..]| && nodes[1..][i].name == r.value && r.value !in declared &&
                 forall j :: 0 <= j < i ==> nodes[1..][j].name in declared;
        assert nodes[i + 1].name == r.value;
        assert forall j :: 0 <= j < i + 1 ==> nodes[j].name in declared by {
          forall j | 0 <= j < i + 1 ensures nodes[j].name in declared {
            if j > 0 { assert nodes[j] == nodes[1..][j - 1]; }
          }
        }
        r
      else
        assert forall i :: 0 <= i < |nodes| ==> nodes[i].name in declared by {
          forall i | 0 <= i < |nodes| ensures nodes[i].name in declared {
            if i > 0 { assert nodes[i] == nodes[1..][i - 1]; }
          }
        }
        r
  }

  function SplitPaths(paths: seq<string>): (r: seq<seq<string>>)
    ensures NonEmptyPaths(r) && |r| == |paths|
    ensures forall i :: 0 <= i < |paths| ==> r[i] == Split(paths[i], '.')
  {
    seq(|paths|, i requires 0 <= i < |paths| => Split(paths[i], '.'))
  }

  function UnknownRelation(name: string, model: string): string
  {
    "Relation '" + name + "' does not exist on '" + model + "' Model"
  }

  /** Static `with(...paths)` on a model named `model` whose declared
      relations are `declared`: the tree of the split paths, or the error
      for its first undeclared top-level name. */
  function With(paths: seq<string>, declared: seq<string>, model: string): (r: Result<seq<RelationNode>, string>)
    ensures var tree := Generate(SplitPaths(paths));
      (r.Success? <==> forall i :: 0 <= i < |tree| ==> tree[i].name in declared) &&
      (r.Success? ==> r.value == tree) &&
      (r.Failure? ==> exists i :: 0 <= i < |tree| && tree[i].name !in declared &&
                        (forall j :: 0 <= j < i ==> tree[j].name in declared) &&
                        r.error == UnknownRelation(tree[i].name, model))
  {
    var tree := Generate(SplitPaths(paths));
    match FirstUndeclared(tree, declared)
    case None => Success(tree)
    case Some(name) => Failure(UnknownRelation(name, model))
  }
}
