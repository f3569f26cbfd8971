/** The file explorer of FileExplorer.js: the expanded-folder list, the tree
    rows built from the flat file list (children by `parent`, folders first,
    then by name), and the create and delete dialogs with their snackbar. */
module FileTree {

  import opened Outcomes
  import opened Seqs
  import opened JsStrings
  import opened Workspace

  /** `a.localeCompare(b)`, as code-point order: negative, zero or positive. */
  function CompareNames(a: string, b: string): (c: int)
    ensures -1 <= c <= 1
    ensures c == 0 <==> a == b
  {
    if |a| == 0 && |b| == 0 then 0
    else if |a| == 0 then -1
    else if |b| == 0 then 1
    else if a[0] < b[0] then -1
    else if a[0] > b[0] then 1
    else
      var c := CompareNames(a[1..], b[1..]);
      assert a == [a[0]] + a[1..] && b == [b[0]] + b[1..];
      c
  }

  lemma {:induction false} CompareNamesFlip(a: string, b: string)
    ensures CompareNames(b, a) == -CompareNames(a, b)
  {
    if |a| > 0 && |b| > 0 && a[0] == b[0] {
      CompareNamesFlip(a[1..], b[1..]);
    }
  }

  lemma {:induction false} CompareNamesTransitive(a: string, b: string, c: string)
    requires CompareNames(a, b) <= 0 && CompareNames(b, c) <= 0
    ensures CompareNames(a, c) <= 0
  {
    if |a| > 0 && |b| > 0 && |c| > 0 && a[0] == b[0] && b[0] == c[0] {
      CompareNamesTransitive(a[1..], b[1..], c[1..]);
    }
  }

  /** The comparator of `buildTree`: same type by name, otherwise the folder first. */
  function Compare(a: FileNode, b: FileNode): (c: int)
    ensures c == 0 <==> a.kind == b.kind && a.name == b.name
    ensures a.kind != b.kind ==> (c < 0 <==> a.kind == Folder)
  {
    if a.kind == b.kind then CompareNames(a.name, b.name)
    else if a.kind == Folder then -1
    else 1
  }

  predicate EntryLe(a: FileNode, b: FileNode)
  {
    Compare(a, b) <= 0
  }

  lemma EntryLeTotal(a: FileNode, b: FileNode)
    ensures EntryLe(a, b) || EntryLe(b, a)
  {
    CompareNamesFlip(a.name, b.name);
  }

  lemma EntryLeTransitive(a: FileNode, b: FileNode, c: FileNode)
    requires EntryLe(a, b) && EntryLe(b, c)
    ensures EntryLe(a, c)
  {
    if a.kind == b.kind && b.kind == c.kind {
      CompareNamesTransitive(a.name, b.name, c.name);
    }
  }

  predicate SortedEntries(s: seq<FileNode>)
  {
    forall i, j :: 0 <= i < j < |s| ==> EntryLe(s[i], s[j])
  }

  /** `x` inserted into a sorted list before the first entry it does not follow. */
  function Insert(x: FileNode, s: seq<FileNode>): (r: seq<FileNode>)
    requires SortedEntries(s)
    ensures SortedEntries(r) && multiset(r) == multiset(s) + multiset{x}
  {
    if |s| == 0 then [x]
    else if EntryLe(x, s[0]) then
      InsertFront(x, s);
      [x] + s
    else
      var rest := Insert(x, s[1..]);
      assert s == [s[0]] + s[1..];
      InsertBehind(x, s, rest);
      [s[0]] + rest
  }

  /** An entry that the head of a sorted list follows can go in front of it. */
  lemma InsertFront(x: FileNode, s: seq<FileNode>)
    requires SortedEntries(s) && |s| > 0 && EntryLe(x, s[0])
    ensures SortedEntries([x] + s)
  {
    var r := [x] + s;
    forall i, j | 0 <= i < j < |r| ensures EntryLe(r[i], r[j]) {
      if i == 0 && j > 1 { EntryLeTransitive(x, s[0], s[j - 1]); }
    }
  }

  /** The head of a sorted list, in front of the rest with `x` inserted,
      when `x` does not go first. */
  lemma InsertBehind(x: FileNode, s: seq<FileNode>, rest: seq<FileNode>)
    requires SortedEntries(s) && |s| > 0 && !EntryLe(x, s[0])
    requires SortedEntries(rest) && multiset(rest) == multiset(s[1..]) + multiset{x}
    ensures SortedEntries([s[0]] + rest)
  {
    var r := [s[0]] + rest;
    EntryLeTotal(x, s[0]);
    forall i, j | 0 <= i < j < |r| ensures EntryLe(r[i], r[j]) {
      if i == 0 {
        assert r[j] in multiset(rest);
        if r[j] != x {
          assert r[j] in multiset(s[1..]);
          var k :| 0 <= k < |s[1..]| && s[1..][k] == r[j];
          assert s[k + 1] == r[j];
        }
      } else {
        assert r[i] == rest[i - 1] && r[j] == rest[j - 1];
      }
    }
  }

  /** An insertion sort: a sorted permutation of the entries. */
  function SortEntries(s: seq<FileNode>): (r: seq<FileNode>)
    ensures SortedEntries(r) && multiset(r) == multiset(s)
  {
    if |s| == 0 then []
    else
      assert s == [s[0]] + s[1..];
      Insert(s[0], SortEntries(s[1..]))
  }

  function ParentOf(f: FileNode): Option<string> { f.parent }

  /** `files.filter(file => file.parent === parentId).sort(...)`: exactly the
      files under `parent`, folders before files, and by name within each. */
  function Children(files: seq<FileNode>, parent: Option<string>): (r: seq<FileNode>)
    ensures forall x :: x in r <==> x in files && x.parent == parent
    ensures multiset(r) == multiset(Select(files, ParentOf, parent))
    ensures forall i, j :: 0 <= i < j < |r| && r[i].kind == File ==> r[j].kind == File
    ensures forall i, j :: 0 <= i < j < |r| && r[i].kind == r[j].kind ==> CompareNames(r[i].name, r[j].name) <= 0
  {
    var selected := Select(files, ParentOf, parent);
    var r := SortEntries(selected);
    SameMembers(r, selected);
    SortedMeaning(r);
    r
  }

  lemma SameMembers(a: seq<FileNode>, b: seq<FileNode>)
    requires multiset(a) == multiset(b)
    ensures forall x :: x in a <==> x in b
  {
    forall x ensures x in a <==> x in b {
      assert x in a <==> x in multiset(a);
      assert x in b <==> x in multiset(b);
    }
  }

  /** What the comparator's order means: folders come first, and within a
      type the names ascend. */
  lemma SortedMeaning(r: seq<FileNode>)
    requires SortedEntries(r)
    ensures forall i, j :: 0 <= i < j < |r| && r[i].kind == File ==> r[j].kind == File
    ensures forall i, j :: 0 <= i < j < |r| && r[i].kind == r[j].kind ==> CompareNames(r[i].name, r[j].name) <= 0
  {
    forall i, j | 0 <= i < j < |r| ensures r[i].kind == File ==> r[j].kind == File {
      assert EntryLe(r[i], r[j]);
    }
  }

  /** One row of the rendered tree: an entry and its depth. */
  datatype Row = Row(file: FileNode, level: nat)

  /** `buildTree(parent, level)`: each child's row, followed by the rows of
      its subtree when it is an expanded folder. `depth` bounds the nesting
      (the source recurses without bound). */
  function Rows(files: seq<FileNode>, expanded: seq<string>, parent: Option<string>, level: nat, depth: nat): (r: seq<Row>)
    ensures forall i :: 0 <= i < |r| ==> r[i].level >= level
    decreases depth, 1, 0
  {
    RowsOf(files, expanded, Children(files, parent), level, depth)
  }

  function RowsOf(files: seq<FileNode>, expanded: seq<string>, entries: seq<FileNode>, level: nat, depth: nat): (r: seq<Row>)
    ensures forall i :: 0 <= i < |r| ==> r[i].level >= level
    decreases depth, 0, |entries|
  {
    if |entries| == 0 then []
    else
      var c := entries[0];
      var sub := SubRows(files, expanded, c, level, depth);
      var r := [Row(c, level)] + sub + RowsOf(files, expanded, entries[1..], level, depth);
      assert forall i :: 0 <= i < |r| ==> r[i].level >= level by {
        forall i | 0 <= i < |r| ensures r[i].level >= level {
          if 0 < i <= |sub| { assert r[i] == sub[i - 1]; }
        }
      }
      r
  }

  /** The rows an entry at `level` opens below itself: its subtree when it is
      an expanded folder, and none otherwise. */
  function SubRows(files: seq<FileNode>, expanded: seq<string>, c: FileNode, level: nat, depth: nat): (r: seq<Row>)
    ensures forall i :: 0 <= i < |r| ==> r[i].level > level
    decreases depth, 0, 0
  {
    if depth > 0 && c.kind == Folder && c.id in expanded then Rows(files, expanded, Some(c.id), level + 1, depth - 1) else []
  }

  /** The entries of the rows at one depth, in order. */
  function AtLevel(rows: seq<Row>, level: nat): (r: seq<FileNode>)
    ensures |r| <= |rows|
  {
    if |rows| == 0 then []
    else (if rows[0].level == level then [rows[0].file] else []) + AtLevel(rows[1..], level)
  }

  lemma {:induction false} AtLevelConcat(a: seq<Row>, b: seq<Row>, level: nat)
    ensures AtLevel(a + b, level) == AtLevel(a, level) + AtLevel(b, level)
  {
    if |a| == 0 {
      assert a + b == b;
    } else {
      assert (a + b)[1..] == a[1..] + b;
      AtLevelConcat(a[1..], b, level);
    }
  }

  lemma {:induction false} AtLevelDeeper(rows: seq<Row>, level: nat)
    requires forall i :: 0 <= i < |rows| ==> rows[i].level > level
    ensures AtLevel(rows, level) == []
  {
    if |rows| > 0 {
      AtLevelDeeper(rows[1..], level);
    }
  }

  /** The rows at the top depth are the entries themselves, in their order:
      expanding a folder inserts its subtree below it and moves no sibling. */
  lemma {:induction false} RowsOfTopLevel(files: seq<FileNode>, expanded: seq<string>, entries: seq<FileNode>, level: nat, depth: nat)
    ensures AtLevel(RowsOf(files, expanded, entries, level, depth), level) == entries
    decreases |entries|
  {
    if |entries| > 0 {
      RowsOfStep(files, expanded, entries, level, depth);
      RowsOfTopLevel(files, expanded, entries[1..], level, depth);
      assert entries == [entries[0]] + entries[1..];
    }
  }

  /** The first entry is the first top row; its subtree adds none. */
  lemma RowsOfStep(files: seq<FileNode>, expanded: seq<string>, entries: seq<FileNode>, level: nat, depth: nat)
    requires |entries| > 0
    ensures AtLevel(RowsOf(files, expanded, entries, level, depth), level) ==
            [entries[0]] + AtLevel(RowsOf(files, expanded, entries[1..], level, depth), level)
  {
    var c := entries[0];
    var sub := SubRows(files, expanded, c, level, depth);
    var rest := RowsOf(files, expanded, entries[1..], level, depth);
    var one := [Row(c, level)];
    assert RowsOf(files, expanded, entries, level, depth) == one + sub + rest;
    AtLevelConcat(one + sub, rest, level);
    AtLevelConcat(one, sub, level);
    assert AtLevel(one, level) == [c] by { assert one[1..] == []; }
    AtLevelDeeper(sub, level);
  }

  /** The top rows of the tree under `parent` are its children. */
  lemma {:induction false} TreeTopLevel(files: seq<FileNode>, expanded: seq<string>, parent: Option<string>, level: nat, depth: nat)
    ensures AtLevel(Rows(files, expanded, parent, level, depth), level) == Children(files, parent)
  {
    RowsOfTopLevel(files, expanded, Children(files, parent), level, depth);
  }

  /** A folder row whose subtree is shown. */
  predicate OpensFolder(row: Row, expanded: seq<string>)
  {
    row.file.kind == Folder && row.file.id in expanded
  }

  /** Row `j` is the parent row of row `i`: one level up, an expanded folder,
      the parent of row `i`'s entry, and the last row that high before `i`. */
  predicate IsParentRow(r: seq<Row>, expanded: seq<string>, j: nat, i: nat)
    requires j < i < |r|
  {
    r[j].level + 1 == r[i].level && OpensFolder(r[j], expanded) && r[i].file.parent == Some(r[j].file.id) &&
    forall k :: j < k < i ==> r[k].level >= r[i].level
  }

  predicate HasParentRow(r: seq<Row>, expanded: seq<string>, i: nat)
    requires i < |r|
  {
    exists j: nat :: j < i && IsParentRow(r, expanded, j, i)
  }

  /** The rows start at `level` ... */
  predicate StartsAt(r: seq<Row>, level: nat)
  {
    |r| > 0 ==> r[0].level == level
  }

  /** ... never rise above it ... */
  predicate Below(r: seq<Row>, level: nat)
  {
    forall i :: 0 <= i < |r| ==> r[i].level >= level
  }

  /** ... hold the children of `parent` at `level` ... */
  predicate TopParents(r: seq<Row>, parent: Option<string>, level: nat)
  {
    forall i :: 0 <= i < |r| && r[i].level == level ==> r[i].file.parent == parent
  }

  /** ... descend by at most one level from one row to the next ... */
  predicate StepAt(r: seq<Row>, i: nat)
    requires 0 < i < |r|
  {
    r[i].level <= r[i - 1].level + 1
  }

  predicate Steps(r: seq<Row>)
  {
    forall i {:trigger StepAt(r, i)} :: 0 < i < |r| ==> StepAt(r, i)
  }

  /** ... and hang every deeper row under its nearest expanded folder row. */
  predicate Hangs(r: seq<Row>, expanded: seq<string>, level: nat)
  {
    forall i {:trigger HasParentRow(r, expanded, i)} :: 0 <= i < |r| && r[i].level > level ==> HasParentRow(r, expanded, i)
  }

  /** The shape of a rendered subtree under `parent` at `level`. */
  predicate Nested(r: seq<Row>, expanded: seq<string>, parent: Option<string>, level: nat)
  {
    StartsAt(r, level) && Below(r, level) && TopParents(r, parent, level) && Steps(r) && Hangs(r, expanded, level)
  }

  /** A parent row inside `s` is still the parent row once rows are put
      before and after `s`. */
  lemma ParentRowShift(pre: seq<Row>, s: seq<Row>, post: seq<Row>, expanded: seq<string>, m: nat)
    requires m < |s| && HasParentRow(s, expanded, m)
    ensures HasParentRow(pre + s + post, expanded, |pre| + m)
  {
    var j: nat :| j < m && IsParentRow(s, expanded, j, m);
    var r := pre + s + post;
    assert forall k :: 0 <= k < |s| ==> r[|pre| + k] == s[k];
    assert IsParentRow(r, expanded, |pre| + j, |pre| + m);
  }

  lemma ConsBelow(c: FileNode, sub: seq<Row>, rest: seq<Row>, parent: Option<string>, level: nat)
    requires Below(sub, level + 1) && Below(rest, level)
    requires TopParents(rest, parent, level) && c.parent == parent
    ensures Below([Row(c, level)] + sub + rest, level)
    ensures TopParents([Row(c, level)] + sub + rest, parent, level)
  {
    var r := [Row(c, level)] + sub + rest;
    assert forall t :: 0 <= t < |sub| ==> r[1 + t] == sub[t];
    assert forall m :: 0 <= m < |rest| ==> r[1 + |sub| + m] == rest[m];
  }

  lemma ConsSteps(c: FileNode, sub: seq<Row>, rest: seq<Row>, level: nat)
    requires StartsAt(sub, level + 1) && Steps(sub)
    requires StartsAt(rest, level) && Steps(rest) && Below(sub, level + 1)
    ensures Steps([Row(c, level)] + sub + rest)
  {
    var r := [Row(c, level)] + sub + rest;
    var n := |sub|;
    forall i | 0 < i < |r| ensures StepAt(r, i) {
      if i <= n {
        assert r[i] == sub[i - 1];
        if 1 < i {
          assert r[i - 1] == sub[i - 2];
          assert StepAt(sub, i - 1);
        }
      } else {
        assert r[i] == rest[i - 1 - n];
        if i > n + 1 {
          assert r[i - 1] == rest[i - 2 - n];
          assert StepAt(rest, i - 1 - n);
        } else if n > 0 {
          assert r[i - 1] == sub[n - 1];
        }
      }
    }
  }

  /** A first-level row of the subtree hangs under the row that opens it; a
      deeper one keeps its parent row inside the subtree. */
  lemma HangsInSub(c: FileNode, sub: seq<Row>, rest: seq<Row>, expanded: seq<string>, level: nat, t: nat)
    requires t < |sub|
    requires Below(sub, level + 1) && TopParents(sub, Some(c.id), level + 1) && Hangs(sub, expanded, level + 1)
    requires OpensFolder(Row(c, level), expanded)
    ensures HasParentRow([Row(c, level)] + sub + rest, expanded, 1 + t)
  {
    var one := [Row(c, level)];
    var r := one + sub + rest;
    assert r[1 + t] == sub[t];
    if sub[t].level == level + 1 {
      assert forall k :: 0 < k < 1 + t ==> r[k] == sub[k - 1];
      assert IsParentRow(r, expanded, 0, 1 + t);
    } else {
      ParentRowShift(one, sub, rest, expanded, t);
    }
  }

  lemma HangsInRest(c: FileNode, sub: seq<Row>, rest: seq<Row>, expanded: seq<string>, level: nat, m: nat)
    requires m < |rest| && rest[m].level > level
    requires Hangs(rest, expanded, level)
    ensures HasParentRow([Row(c, level)] + sub + rest, expanded, 1 + |sub| + m)
  {
    var one := [Row(c, level)];
    ParentRowShift(one + sub, rest, [], expanded, m);
    assert one + sub + rest + [] == one + sub + rest;
  }

  lemma ConsHangs(c: FileNode, sub: seq<Row>, rest: seq<Row>, expanded: seq<string>, level: nat)
    requires Below(sub, level + 1) && TopParents(sub, Some(c.id), level + 1) && Hangs(sub, expanded, level + 1)
    requires |sub| > 0 ==> OpensFolder(Row(c, level), expanded)
    requires Hangs(rest, expanded, level)
    ensures Hangs([Row(c, level)] + sub + rest, expanded, level)
  {
    var r := [Row(c, level)] + sub + rest;
    var n := |sub|;
    forall i | 0 <= i < |r| && r[i].level > level
      ensures HasParentRow(r, expanded, i)
    {
      if i <= n {
        HangsInSub(c, sub, rest, expanded, level, i - 1);
      } else {
        assert r[i] == rest[i - 1 - n];
        HangsInRest(c, sub, rest, expanded, level, i - 1 - n);
      }
    }
  }

  /** A row, then the subtree it opens (nothing unless it is an expanded
      folder), then the rows of its later siblings, is again nested. */
  lemma NestedCons(r: seq<Row>, c: FileNode, sub: seq<Row>, rest: seq<Row>, expanded: seq<string>, parent: Option<string>, level: nat)
    requires r == [Row(c, level)] + sub + rest
    requires c.parent == parent
    requires Nested(sub, expanded, Some(c.id), level + 1)
    requires |sub| > 0 ==> OpensFolder(Row(c, level), expanded)
    requires Nested(rest, expanded, parent, level)
    ensures Nested(r, expanded, parent, level)
  {
    ConsBelow(c, sub, rest, parent, level);
    ConsSteps(c, sub, rest, level);
    ConsHangs(c, sub, rest, expanded, level);
  }

  /** `buildTree(parent, level)` renders a nested subtree. */
  lemma {:induction false} RowsNested(files: seq<FileNode>, expanded: seq<string>, parent: Option<string>, level: nat, depth: nat)
    ensures Nested(Rows(files, expanded, parent, level, depth), expanded, parent, level)
    decreases depth, 1, 0
  {
    var entries := Children(files, parent);
    assert forall k :: 0 <= k < |entries| ==> entries[k] in entries;
    RowsOfNested(files, expanded, entries, parent, level, depth);
  }

  lemma {:induction false} RowsOfNested(files: seq<FileNode>, expanded: seq<string>, entries: seq<FileNode>,
                                        parent: Option<string>, level: nat, depth: nat)
    requires forall k :: 0 <= k < |entries| ==> entries[k].parent == parent
    ensures Nested(RowsOf(files, expanded, entries, level, depth), expanded, parent, level)
    decreases depth, 0, |entries|
  {
    if |entries| > 0 {
      var c := entries[0];
      assert forall k :: 0 <= k < |entries| - 1 ==> entries[1..][k] == entries[k + 1];
      SubRowsNested(files, expanded, c, level, depth);
      RowsOfNested(files, expanded, entries[1..], parent, level, depth);
      NestedCons(RowsOf(files, expanded, entries, level, depth), c, SubRows(files, expanded, c, level, depth),
                 RowsOf(files, expanded, entries[1..], level, depth), expanded, parent, level);
    }
  }

  /** The rows an entry opens are nested one level below it, and there are
      some only when it is an expanded folder. */
  lemma {:induction false} SubRowsNested(files: seq<FileNode>, expanded: seq<string>, c: FileNode, level: nat, depth: nat)
    ensures Nested(SubRows(files, expanded, c, level, depth), expanded, Some(c.id), level + 1)
    ensures |SubRows(files, expanded, c, level, depth)| > 0 ==> OpensFolder(Row(c, level), expanded)
    decreases depth, 0, 0
  {
    if depth > 0 && c.kind == Folder && c.id in expanded {
      RowsNested(files, expanded, Some(c.id), level + 1, depth - 1);
    }
  }

  /** Between two consecutive rows the level rises by at most one, and it
      rises only below an expanded folder, whose first child follows it: a
      collapsed folder or a file adds no rows. */
  lemma NestedStep(r: seq<Row>, expanded: seq<string>, parent: Option<string>, level: nat, i: nat)
    requires Nested(r, expanded, parent, level) && 0 < i < |r|
    ensures r[i].level <= r[i - 1].level + 1
    ensures r[i].level == r[i - 1].level + 1 ==>
              OpensFolder(r[i - 1], expanded) && r[i].file.parent == Some(r[i - 1].file.id)
  {
    assert StepAt(r, i);
    if r[i].level == r[i - 1].level + 1 {
      assert r[i].level > level;
      assert HasParentRow(r, expanded, i);
      var j: nat :| j < i && IsParentRow(r, expanded, j, i);
      assert j == i - 1;
    }
  }

  /** `toggleFolder`: a listed folder id is removed, any other is appended. */
  function Toggled(expanded: seq<string>, id: string): (r: seq<string>)
    ensures id in r <==> id !in expanded
    ensures forall x :: x != id ==> (x in r <==> x in expanded)
  {
    if id in expanded then RemoveAll(expanded, Itself, id) else expanded + [id]
  }

  /** Toggling a folder twice restores the list: exactly when the folder was
      collapsed, and up to moving the id to the end when it was expanded. */
  lemma ToggleTwice(expanded: seq<string>, id: string)
    ensures id !in expanded ==> Toggled(Toggled(expanded, id), id) == expanded
    ensures id in expanded ==> Toggled(Toggled(expanded, id), id) == RemoveAll(expanded, Itself, id) + [id]
    ensures forall x :: x in Toggled(Toggled(expanded, id), id) <==> x in expanded
  {
    if id !in expanded {
      RemoveAllConcat(expanded, [id], Itself, id);
      var one := [id];
      assert one[1..] == [];
      forall i | 0 <= i < |expanded| ensures Itself(expanded[i]) != id {
        assert expanded[i] in expanded;
      }
    }
  }

  datatype Severity = Info | Success | Warning | Error

  datatype Snackbar = Snackbar(open: bool, message: string, severity: Severity)

  datatype CreateDialog = CreateDialog(open: bool, kind: FileKind, parent: Option<string>)

  const ClosedDialog := CreateDialog(false, File, None)

  function KindWord(k: FileKind): string
  {
    if k == Folder then "folder" else "file"
  }

  class Explorer {
    const ws: ProjectWorkspace
    var expandedFolders: seq<string>
    var contextMenu: Option<(int, int)>
    var selectedFile: Option<FileNode>
    var createDialog: CreateDialog
    var newFileName: string
    var snackbar: Snackbar

    constructor (ws: ProjectWorkspace)
      ensures this.ws == ws && expandedFolders == ["/"]
      ensures contextMenu == None && selectedFile == None
      ensures createDialog == ClosedDialog && newFileName == "" && snackbar == Snackbar(false, "", Info)
    {
      this.ws := ws;
      expandedFolders := ["/"];
      contextMenu, selectedFile := None, None;
      createDialog, newFileName := ClosedDialog, "";
      snackbar := Snackbar(false, "", Info);
    }

    /** The rendered tree: `buildTree()` from the root, to `depth` levels. */
    function Tree(depth: nat): (r: seq<Row>)
      reads this, ws
      ensures AtLevel(r, 0) == Children(ws.files, None)
      ensures Nested(r, expandedFolders, None, 0)
    {
      TreeTopLevel(ws.files, expandedFolders, None, 0, depth);
      RowsNested(ws.files, expandedFolders, None, 0, depth);
      Rows(ws.files, expandedFolders, None, 0, depth)
    }

    method ToggleFolder(id: string)
      modifies this
      ensures expandedFolders == Toggled(old(expandedFolders), id)
      ensures contextMenu == old(contextMenu) && selectedFile == old(selectedFile)
      ensures createDialog == old(createDialog) && newFileName == old(newFileName) && snackbar == old(snackbar)
    {
      expandedFolders := Toggled(expandedFolders, id);
    }

    /** `handleFileClick`: a folder is toggled, a file is opened. */
    method HandleFileClick(file: FileNode, fetched: Outcome<FileNode>)
      modifies this, ws
      ensures file.kind == Folder ==> expandedFolders == Toggled(old(expandedFolders), file.id) && unchanged(ws)
      ensures file.kind == File ==>
                expandedFolders == old(expandedFolders) &&
                (HasKey(old(ws.openFiles), FileId, file.id) ==>
                   ws.openFiles == old(ws.openFiles) && ws.activeFileId == Some(file.id) && ws.emitted == old(ws.emitted)) &&
                (!HasKey(old(ws.openFiles), FileId, file.id) && file.content == "" && (ws.currentProject.None? || fetched.Err?) ==>
                   ws.openFiles == old(ws.openFiles) && ws.activeFileId == old(ws.activeFileId) && ws.emitted == old(ws.emitted)) &&
                (!HasKey(old(ws.openFiles), FileId, file.id) && (file.content != "" || (ws.currentProject.Some? && fetched.Ok?)) ==>
                   var tab := if file.content != "" then file else fetched.value;
                   ws.openFiles == old(ws.openFiles) + [tab] && ws.activeFileId == Some(tab.id) &&
                   ws.emitted == (if ws.currentProject.Some? then ws.Emit(old(ws.emitted), FileOpen(ws.currentProject.value.id, tab.id))
                                  else old(ws.emitted)))
      ensures file.kind == File ==>
                ws.socket == old(ws.socket) && ws.currentProject == old(ws.currentProject) && ws.files == old(ws.files) &&
                ws.activeUsers == old(ws.activeUsers) && ws.cursors == old(ws.cursors) &&
                ws.executionOutput == old(ws.executionOutput) && ws.isExecuting == old(ws.isExecuting) &&
                ws.executions == old(ws.executions)
      ensures contextMenu == old(contextMenu) && selectedFile == old(selectedFile)
      ensures createDialog == old(createDialog) && newFileName == old(newFileName) && snackbar == old(snackbar)
      ensures old(ws.Valid()) ==> ws.Valid()
    {
      if file.kind == Folder {
        ToggleFolder(file.id);
      } else {
        ws.OpenFile(file, fetched);
      }
    }

    /** `handleContextMenu`: the menu opens at the mouse position on that entry. */
    method HandleContextMenu(file: FileNode, x: int, y: int)
      modifies this
      ensures contextMenu == Some((x, y)) && selectedFile == Some(file)
      ensures expandedFolders == old(expandedFolders)
      ensures createDialog == old(createDialog) && newFileName == old(newFileName) && snackbar == old(snackbar)
    {
      contextMenu := Some((x, y));
      selectedFile := Some(file);
    }

    /** `handleCloseContextMenu` */
    method CloseContextMenu()
      modifies this
      ensures contextMenu == None
      ensures expandedFolders == old(expandedFolders) && selectedFile == old(selectedFile)
      ensures createDialog == old(createDialog) && newFileName == old(newFileName) && snackbar == old(snackbar)
    {
      contextMenu := None;
    }

    /** Closing the snackbar keeps its message and severity. */
    method CloseSnackbar()
      modifies this
      ensures snackbar == old(snackbar).(open := false)
      ensures expandedFolders == old(expandedFolders) && contextMenu == old(contextMenu) && selectedFile == old(selectedFile)
      ensures createDialog == old(createDialog) && newFileName == old(newFileName)
    {
      snackbar := snackbar.(open := false);
    }

    /** `handleOpenCreateDialog`: the dialog opens for a type and a parent,
        and the context menu closes. */
    method OpenCreateDialog(kind: FileKind, parent: Option<string>)
      modifies this
      ensures createDialog == CreateDialog(true, kind, parent) && contextMenu == None
      ensures expandedFolders == old(expandedFolders) && selectedFile == old(selectedFile)
      ensures newFileName == old(newFileName) && snackbar == old(snackbar)
    {
      createDialog := CreateDialog(true, kind, parent);
      CloseContextMenu();
    }

    /** `handleCloseCreateDialog`: back to a closed file dialog at the root
        with an empty name. */
    method CloseCreateDialog()
      modifies this
      ensures createDialog == ClosedDialog && newFileName == ""
      ensures expandedFolders == old(expandedFolders) && contextMenu == old(contextMenu)
      ensures selectedFile == old(selectedFile) && snackbar == old(snackbar)
    {
      createDialog := ClosedDialog;
      newFileName := "";
    }

    /** `handleCreateFile`: a blank name only warns; otherwise the entry is
        created, and the snackbar reports success (and the dialog resets) or
        the server's message (or a generic one). */
    method HandleCreateFile(post: Outcome<FileNode>)
      modifies this, ws
      ensures Blank(old(newFileName)) ==>
                snackbar == Snackbar(true, "Please enter a name", Warning) && unchanged(ws) &&
                createDialog == old(createDialog) && newFileName == old(newFileName)
      ensures !Blank(old(newFileName)) && (old(ws.currentProject).None? || post.Err?) ==>
                ws.files == old(ws.files) && createDialog == old(createDialog) && newFileName == old(newFileName) &&
                var f := if old(ws.currentProject).None? then NoProjectError else post.failure;
                snackbar == Snackbar(true, if f.serverMessage != "" then f.serverMessage
                                           else "Failed to create " + KindWord(old(createDialog).kind), Error)
      ensures !Blank(old(newFileName)) && old(ws.currentProject).Some? && post.Ok? ==>
                ws.files == old(ws.files) + [post.value] && createDialog == ClosedDialog && newFileName == "" &&
                snackbar == Snackbar(true, (if old(createDialog).kind == Folder then "Folder" else "File") + " created successfully!", Success)
      ensures expandedFolders == old(expandedFolders) && contextMenu == old(contextMenu) && selectedFile == old(selectedFile)
      ensures ws.openFiles == old(ws.openFiles) && ws.activeFileId == old(ws.activeFileId) && ws.emitted == old(ws.emitted)
      ensures ws.socket == old(ws.socket) && ws.currentProject == old(ws.currentProject)
      ensures ws.activeUsers == old(ws.activeUsers) && ws.cursors == old(ws.cursors)
      ensures ws.executionOutput == old(ws.executionOutput) && ws.isExecuting == old(ws.isExecuting)
      ensures ws.executions == old(ws.executions)
    {
      if Blank(newFileName) {
        snackbar := Snackbar(true, "Please enter a name", Warning);
        return;
      }
      var res := ws.CreateFile(newFileName, createDialog.kind, createDialog.parent, post);
      if res.Ok? {
        snackbar := Snackbar(true, (if createDialog.kind == Folder then "Folder" else "File") + " created successfully!", Success);
        CloseCreateDialog();
      } else {
        var f := res.failure;
        snackbar := Snackbar(true, if f.serverMessage != "" then f.serverMessage
                                   else "Failed to create " + KindWord(createDialog.kind), Error);
      }
    }

    /** `handleDeleteFile`: with an entry selected and the deletion confirmed,
        the entry is deleted; the snackbar reports success (and the menu
        closes) or the server's message (or a generic one). */
    method HandleDeleteFile(confirmed: bool, del: Outcome<()>)
      modifies this, ws
      ensures old(selectedFile).None? || !confirmed ==> unchanged(this) && unchanged(ws)
      ensures old(selectedFile).Some? && confirmed && old(ws.currentProject).Some? && del.Ok? ==>
                var id := old(selectedFile).value.id;
                ws.files == RemoveAll(old(ws.files), FileId, id) &&
                (HasKey(old(ws.openFiles), FileId, id) ==>
                   (ws.openFiles, ws.activeFileId) == AfterClose(old(ws.openFiles), old(ws.activeFileId), id) &&
                   ws.emitted == ws.Emit(old(ws.emitted), FileClose(old(ws.currentProject).value.id, id))) &&
                (!HasKey(old(ws.openFiles), FileId, id) ==>
                   ws.openFiles == old(ws.openFiles) && ws.activeFileId == old(ws.activeFileId) && ws.emitted == old(ws.emitted)) &&
                !HasKey(ws.openFiles, FileId, id) &&
                snackbar == Snackbar(true, "Deleted successfully!", Success) && contextMenu == None
      ensures old(selectedFile).Some? && confirmed && (old(ws.currentProject).None? || del.Err?) ==>
                ws.files == old(ws.files) && ws.openFiles == old(ws.openFiles) && ws.activeFileId == old(ws.activeFileId) &&
                ws.emitted == old(ws.emitted) && contextMenu == old(contextMenu) &&
                var f := if old(ws.currentProject).None? then NoProjectTypeError else del.failure;
                snackbar == Snackbar(true, if f.serverMessage != "" then f.serverMessage else "Failed to delete", Error)
      ensures expandedFolders == old(expandedFolders) && selectedFile == old(selectedFile)
      ensures createDialog == old(createDialog) && newFileName == old(newFileName)
      ensures ws.socket == old(ws.socket) && ws.currentProject == old(ws.currentProject)
      ensures ws.activeUsers == old(ws.activeUsers) && ws.cursors == old(ws.cursors)
      ensures ws.executionOutput == old(ws.executionOutput) && ws.isExecuting == old(ws.isExecuting)
      ensures ws.executions == old(ws.executions)
      ensures old(ws.Valid()) ==> ws.Valid()
    {
      if selectedFile.None? || !confirmed {
        return;
      }
      var res := ws.DeleteFile(selectedFile.value.id, del);
      if res.Ok? {
        snackbar := Snackbar(true, "Deleted successfully!", Success);
        CloseContextMenu();
      } else {
        var f := res.failure;
        snackbar := Snackbar(true, if f.serverMessage != "" then f.serverMessage else "Failed to delete", Error);
      }
    }
  }
}
