/** The collaborative editor of CodeEditor.js: the editor's text model as a line
    buffer, the local edit broadcast, remote edits and remote cursors received
    from the project room, the save, run and close buttons, and the AI
    completion insertion. Monaco's own bookkeeping (decoration ids, version
    ids) and the completion request are parameters. */
module EditorSync {

  import opened Outcomes
  import opened Seqs
  import opened TextBuffer
  import opened JsStrings
  import Workspace

  /** A cursor decoration the editor remembers: the socket it shows and
      Monaco's id for it. */
  datatype Decoration = Decoration(socketId: string, id: string)

  function SocketOf(d: Decoration): string { d.socketId }

  /** The filter of `code_updated` and `cursor_moved`: an event is handled
      only when it is about the open file and was not sent by this client. */
  predicate IsRemoteForFile(fileId: string, socketId: string, openFileId: string, localSocketId: string)
  {
    fileId == openFileId && socketId != localSocketId
  }

  /** The decorations after a cursor moved: the socket's old decorations are
      dropped and its new one is appended. */
  function Redecorate(decorations: seq<Decoration>, socketId: string, id: string): (r: seq<Decoration>)
    ensures CountKey(r, SocketOf, socketId) == 1
    ensures r[|r| - 1] == Decoration(socketId, id)
    ensures forall d: Decoration :: d.socketId != socketId ==> (d in r <==> d in decorations)
    ensures UniqueKeys(decorations, SocketOf) ==> UniqueKeys(r, SocketOf)
  {
    var kept := RemoveAll(decorations, SocketOf, socketId);
    var r := kept + [Decoration(socketId, id)];
    CountKeyConcat(kept, [Decoration(socketId, id)], SocketOf, socketId);
    var one := [Decoration(socketId, id)];
    assert one[1..] == [];
    assert UniqueKeys(decorations, SocketOf) ==> UniqueKeys(r, SocketOf) by {
      if UniqueKeys(decorations, SocketOf) {
        RemoveAllKeepsUnique(decorations, SocketOf, socketId);
        AppendNewKey(kept, Decoration(socketId, id), SocketOf);
      }
    }
    r
  }

  /** `editor.getPosition()`: Monaco keeps the cursor inside the model, so the
      stored 1-based position is read back validated against the buffer. */
  function ValidPosition(lines: Lines, position: (int, int)): (v: (int, int))
    requires |lines| >= 1
    ensures 1 <= v.0 <= |lines| && 1 <= v.1 <= |lines[v.0 - 1]| + 1
    ensures 1 <= position.0 <= |lines| && 1 <= position.1 <= |lines[position.0 - 1]| + 1 ==> v == position
  {
    var p := Clamp(lines, position.0, position.1);
    (p.line + 1, p.column + 1)
  }

  /** The change broadcast for a local edit, as written: the full range of the
      model AFTER the edit, and the new value. */
  function LocalChangeAsWritten(value: string): (c: Change)
    ensures c.text == value && c.range == FullRange(Split(value))
  {
    Change(FullRange(Split(value)), value)
  }

  /** The change broadcast for a local edit, corrected: the full range of the
      model BEFORE the edit, which the receivers still hold, and the new value. */
  function LocalChange(before: Lines, value: string): (c: Change)
    requires |before| >= 1
    ensures ApplyChanges(before, [c]) == Split(value)
  {
    var c := Change(FullRange(before), value);
    ReplaceFullRange(before, value);
    assert [c][1..] == [];
    c
  }

  /** A receiver holding "abc" that gets the as-written change for the local
      edit to "ab" still holds "abc": the deletion is lost. */
  lemma AsWrittenLosesDeletion()
    ensures ApplyChanges(["abc"], [LocalChangeAsWritten("ab")]) == ["abc"]
    ensures ApplyChanges(["abc"], [LocalChangeAsWritten("ab")]) != Split("ab")
  {
    var c := LocalChangeAsWritten("ab");
    SplitSingleLine("ab");
    assert c.range == Range(1, 1, 1, 3);
    assert Span(["abc"], c.range) == (Pos(0, 0), Pos(0, 2));
    var r := ApplyEdit(["abc"], c);
    assert Splice(["abc"], Pos(0, 0), Pos(0, 2), ["ab"]) == ["abc"] by {
      assert "abc"[..0] == "" && "abc"[2..] == "c";
      assert "" + "ab" + "c" == "abc";
    }
    assert r == ["abc"];
    assert [c][1..] == [];
  }

  /** Every receiver whose buffer matched the sender's before the edit holds
      the sender's new text after the corrected change. */
  lemma LocalChangeConverges(before: Lines, value: string)
    requires |before| >= 1
    ensures Join(ApplyChanges(before, [LocalChange(before, value)])) == value
  {
    JoinSplit(value);
  }

  /** One `code_updated` event carrying `a + b` leaves the buffer where two
      events carrying `a` and then `b` leave it. */
  lemma BatchOrder(lines: Lines, a: seq<Change>, b: seq<Change>)
    requires |lines| >= 1
    ensures ApplyChanges(lines, a + b) == ApplyChanges(ApplyChanges(lines, a), b)
  {
    ApplyChangesConcat(lines, a, b);
  }

  /** Applying one more change is one more step of the fold. */
  lemma ApplyChangesStep(lines: Lines, changes: seq<Change>, i: nat)
    requires |lines| >= 1 && i < |changes|
    ensures ApplyChanges(lines, changes[..i + 1]) == ApplyEdit(ApplyChanges(lines, changes[..i]), changes[i])
  {
    assert changes[..i + 1] == changes[..i] + [changes[i]];
    ApplyChangesConcat(lines, changes[..i], [changes[i]]);
    ApplyChangesOne(ApplyChanges(lines, changes[..i]), changes[i]);
  }

  /** A batch of one change is that change's edit. */
  lemma ApplyChangesOne(lines: Lines, c: Change)
    requires |lines| >= 1
    ensures ApplyChanges(lines, [c]) == ApplyEdit(lines, c)
  {
    assert [c][1..] == [];
  }

  /** The text the model holds after each change of a batch, in order: what
      `onChange` reports after each `pushEditOperations`. The last one is the
      text after the whole batch. */
  function EchoTexts(lines: Lines, changes: seq<Change>): (r: seq<string>)
    requires |lines| >= 1
    ensures |r| == |changes|
    ensures forall i :: 0 <= i < |changes| ==> r[i] == Join(ApplyChanges(lines, changes[..i + 1]))
    ensures |changes| > 0 ==> r[|changes| - 1] == Join(ApplyChanges(lines, changes))
  {
    if |changes| == 0 then []
    else
      var n := |changes| - 1;
      var r := EchoTexts(lines, changes[..n]) + [Join(ApplyChanges(lines, changes))];
      assert forall i :: 0 <= i <= n ==> r[i] == Join(ApplyChanges(lines, changes[..i + 1])) by {
        forall i | 0 <= i <= n
          ensures r[i] == Join(ApplyChanges(lines, changes[..i + 1]))
        {
          if i < n {
            assert changes[..n][..i + 1] == changes[..i + 1];
          } else {
            assert changes[..i + 1] == changes;
          }
        }
      }
      r
  }

  /** The `code_change` events rebroadcast for the texts a batch passes
      through, one per text, each over the full range of its model. */
  function Echoes(projectId: string, fileId: string, texts: seq<string>): (r: seq<Workspace.Emission>)
    ensures |r| == |texts|
    ensures forall i :: 0 <= i < |texts| ==> r[i] == Workspace.CodeChange(projectId, fileId, [LocalChangeAsWritten(texts[i])])
  {
    if |texts| == 0 then []
    else [Workspace.CodeChange(projectId, fileId, [LocalChangeAsWritten(texts[0])])] + Echoes(projectId, fileId, texts[1..])
  }

  /** One more change of the batch is one more echoed text. */
  lemma EchoTextsStep(lines: Lines, changes: seq<Change>, i: nat)
    requires |lines| >= 1 && i < |changes|
    ensures EchoTexts(lines, changes[..i + 1]) ==
            EchoTexts(lines, changes[..i]) + [Join(ApplyChanges(lines, changes[..i + 1]))]
  {
    assert changes[..i + 1][..i] == changes[..i];
  }

  /** `changes.forEach(change => model.pushEditOperations(...))`: the changes
      are pushed one by one, in list order, each into the buffer the previous
      one left; after each push the text is recorded, as `onChange` sees it. */
  method PushEdits(lines: Lines, changes: seq<Change>) returns (buffer: Lines, texts: seq<string>)
    requires |lines| >= 1
    ensures buffer == ApplyChanges(lines, changes)
    ensures texts == EchoTexts(lines, changes)
    ensures WellFormed(lines) ==> WellFormed(buffer)
  {
    buffer := lines;
    texts := [];
    var i := 0;
    while i < |changes|
      invariant 0 <= i <= |changes|
      invariant buffer == ApplyChanges(lines, changes[..i])
      invariant texts == EchoTexts(lines, changes[..i])
    {
      ApplyChangesStep(lines, changes, i);
      EchoTextsStep(lines, changes, i);
      buffer := ApplyEdit(buffer, changes[i]);
      texts := texts + [Join(buffer)];
      i := i + 1;
    }
    assert changes[..i] == changes;
  }

  class CodeEditor {
    const ws: Workspace.ProjectWorkspace
    /** The `file` prop: the open tab the editor shows. */
    var file: Option<Workspace.FileNode>
    var code: string
    /** The editor's text model. */
    var lines: Lines
    /** Whether `onMount` has given the editor and Monaco to the component. */
    var mounted: bool
    var hasUnsavedChanges: bool
    var isSaving: bool
    var aiEnabled: bool
    var isLoadingAI: bool
    /** The editor's cursor, 1-based (lineNumber, column). */
    var position: (int, int)
    /** `decorationsRef.current` */
    var decorations: seq<Decoration>

    predicate Valid()
      reads this
    {
      WellFormed(lines) && UniqueKeys(decorations, SocketOf)
    }

    constructor (ws: Workspace.ProjectWorkspace, file: Option<Workspace.FileNode>)
      ensures this.ws == ws && this.file == file
      ensures code == (if file.Some? then file.value.content else "") && lines == Split(code)
      ensures !mounted && !hasUnsavedChanges && !isSaving && aiEnabled && !isLoadingAI
      ensures position == (1, 1) && decorations == []
      ensures Valid()
    {
      this.ws := ws;
      this.file := file;
      code := if file.Some? then file.value.content else "";
      lines := Split(if file.Some? then file.value.content else "");
      JoinSplit(if file.Some? then file.value.content else "");
      mounted, hasUnsavedChanges, isSaving := false, false, false;
      aiEnabled, isLoadingAI := true, false;
      position := (1, 1);
      decorations := [];
    }

    /** `onMount` */
    method Mount()
      modifies this
      ensures mounted
      ensures file == old(file) && code == old(code) && lines == old(lines)
      ensures hasUnsavedChanges == old(hasUnsavedChanges) && isSaving == old(isSaving)
      ensures aiEnabled == old(aiEnabled) && isLoadingAI == old(isLoadingAI)
      ensures position == old(position) && decorations == old(decorations)
    {
      mounted := true;
    }

    /** A new `file` prop. The effect keyed by the file id resets the code to
        the new file's content and clears the dirty flag; a prop with the same
        id (or no file) leaves both as they are. */
    method SetFile(f: Option<Workspace.FileNode>)
      modifies this
      requires Valid()
      ensures file == f
      ensures f.Some? && (old(file).None? || old(file).value.id != f.value.id) ==>
                code == f.value.content && lines == Split(code) && !hasUnsavedChanges
      ensures !(f.Some? && (old(file).None? || old(file).value.id != f.value.id)) ==>
                code == old(code) && lines == old(lines) && hasUnsavedChanges == old(hasUnsavedChanges)
      ensures mounted == old(mounted) && isSaving == old(isSaving)
      ensures aiEnabled == old(aiEnabled) && isLoadingAI == old(isLoadingAI)
      ensures position == old(position) && decorations == old(decorations)
      ensures Valid()
    {
      var changed := f.Some? && (file.None? || file.value.id != f.value.id);
      file := f;
      if changed {
        code := f.value.content;
        lines := Split(f.value.content);
        JoinSplit(f.value.content);
        hasUnsavedChanges := false;
      }
    }

    /** `handleEditorChange(value)`: the model now holds `value`; the code is
        updated, the editor is dirty, and with a socket, a project, a file and
        a model the edit is broadcast as one `code_change` over the full range
        of the model after the edit (`LocalChangeAsWritten`). */
    method HandleEditorChange(value: string)
      modifies this, ws
      requires Valid()
      ensures code == value && hasUnsavedChanges && lines == Split(value)
      ensures ws.emitted == (if ws.socket.Some? && ws.currentProject.Some? && file.Some? && mounted
                             then old(ws.emitted) + [Workspace.CodeChange(ws.currentProject.value.id, file.value.id,
                                                                          [LocalChangeAsWritten(value)])]
                             else old(ws.emitted))
      ensures ws.socket == old(ws.socket) && ws.currentProject == old(ws.currentProject)
      ensures ws.files == old(ws.files) && ws.openFiles == old(ws.openFiles)
      ensures ws.activeFileId == old(ws.activeFileId) && ws.activeUsers == old(ws.activeUsers)
      ensures ws.cursors == old(ws.cursors) && ws.executionOutput == old(ws.executionOutput)
      ensures ws.isExecuting == old(ws.isExecuting) && ws.executions == old(ws.executions)
      ensures file == old(file) && mounted == old(mounted) && isSaving == old(isSaving)
      ensures aiEnabled == old(aiEnabled) && isLoadingAI == old(isLoadingAI)
      ensures position == old(position) && decorations == old(decorations)
      ensures Valid()
    {
      JoinSplit(value);
      code, hasUnsavedChanges, lines := value, true, Split(value);
      if ws.socket.Some? && ws.currentProject.Some? && file.Some? && mounted {
        var e := Workspace.CodeChange(ws.currentProject.value.id, file.value.id, [LocalChangeAsWritten(value)]);
        ws.emitted := ws.emitted + [e];
      }
    }

    /** `handleCursorChange`: the local cursor is broadcast when there is a
        socket, a project and a file. */
    method HandleCursorChange(line: int, column: int)
      modifies this, ws
      ensures position == (line, column)
      ensures ws.emitted == (if ws.socket.Some? && ws.currentProject.Some? && file.Some?
                             then old(ws.emitted) + [Workspace.CursorUpdate(ws.currentProject.value.id, file.value.id, line, column)]
                             else old(ws.emitted))
      ensures ws.socket == old(ws.socket) && ws.currentProject == old(ws.currentProject)
      ensures ws.files == old(ws.files) && ws.openFiles == old(ws.openFiles)
      ensures ws.activeFileId == old(ws.activeFileId) && ws.activeUsers == old(ws.activeUsers)
      ensures ws.cursors == old(ws.cursors) && ws.executionOutput == old(ws.executionOutput)
      ensures ws.isExecuting == old(ws.isExecuting) && ws.executions == old(ws.executions)
      ensures file == old(file) && code == old(code) && lines == old(lines) && mounted == old(mounted)
      ensures hasUnsavedChanges == old(hasUnsavedChanges) && isSaving == old(isSaving)
      ensures aiEnabled == old(aiEnabled) && isLoadingAI == old(isLoadingAI) && decorations == old(decorations)
    {
      position := (line, column);
      if ws.socket.Some? && ws.currentProject.Some? && file.Some? {
        ws.emitted := ws.emitted + [Workspace.CursorUpdate(ws.currentProject.value.id, file.value.id, line, column)];
      }
    }

    /** `code_updated`: a remote batch for the open file, from another socket,
        is pushed into the model change by change, in list order. Each push
        is an edit of the model, so `onChange` runs `handleEditorChange` on
        the text after it: the code follows the model, the editor is dirty,
        and with a project each intermediate text is broadcast again. */
    method HandleCodeUpdated(fileId: string, changes: seq<Change>, socketId: string)
      modifies this, ws
      requires Valid()
      ensures ws.socket.Some? && file.Some? && IsRemoteForFile(fileId, socketId, file.value.id, ws.socket.value) && mounted ==>
                lines == ApplyChanges(old(lines), changes) &&
                (|changes| > 0 ==> code == Join(lines) && hasUnsavedChanges) &&
                (|changes| == 0 ==> code == old(code) && hasUnsavedChanges == old(hasUnsavedChanges)) &&
                ws.emitted == (if ws.currentProject.Some?
                               then old(ws.emitted) + Echoes(ws.currentProject.value.id, file.value.id, EchoTexts(old(lines), changes))
                               else old(ws.emitted))
      ensures !(ws.socket.Some? && file.Some? && IsRemoteForFile(fileId, socketId, file.value.id, ws.socket.value) && mounted) ==>
                lines == old(lines) && code == old(code) && hasUnsavedChanges == old(hasUnsavedChanges) &&
                ws.emitted == old(ws.emitted)
      ensures ws.socket == old(ws.socket) && ws.currentProject == old(ws.currentProject)
      ensures ws.files == old(ws.files) && ws.openFiles == old(ws.openFiles)
      ensures ws.activeFileId == old(ws.activeFileId) && ws.activeUsers == old(ws.activeUsers)
      ensures ws.cursors == old(ws.cursors) && ws.executionOutput == old(ws.executionOutput)
      ensures ws.isExecuting == old(ws.isExecuting) && ws.executions == old(ws.executions)
      ensures file == old(file) && mounted == old(mounted) && isSaving == old(isSaving)
      ensures aiEnabled == old(aiEnabled) && isLoadingAI == old(isLoadingAI)
      ensures position == old(position) && decorations == old(decorations)
      ensures Valid()
    {
      if ws.socket.None? || file.None? || !IsRemoteForFile(fileId, socketId, file.value.id, ws.socket.value) || !mounted {
        return;
      }
      var texts := ApplyRemote(changes);
      if ws.currentProject.Some? {
        ws.EmitAll(Echoes(ws.currentProject.value.id, file.value.id, texts));
      }
    }

    /** The accepted part of `code_updated`: the pushes into the model and
        the texts `onChange` sees after each of them. */
    method ApplyRemote(changes: seq<Change>) returns (texts: seq<string>)
      modifies this
      requires Valid()
      ensures texts == EchoTexts(old(lines), changes)
      ensures lines == ApplyChanges(old(lines), changes)
      ensures |changes| > 0 ==> code == Join(lines) && hasUnsavedChanges
      ensures |changes| == 0 ==> code == old(code) && hasUnsavedChanges == old(hasUnsavedChanges)
      ensures file == old(file) && mounted == old(mounted) && isSaving == old(isSaving)
      ensures aiEnabled == old(aiEnabled) && isLoadingAI == old(isLoadingAI)
      ensures position == old(position) && decorations == old(decorations)
      ensures Valid()
    {
      if |changes| == 0 {
        return [];
      }
      var buffer;
      buffer, texts := PushEdits(lines, changes);
      lines, code, hasUnsavedChanges := buffer, Join(buffer), true;
    }

    /** `cursor_moved`: a remote cursor in the open file is stored under the
        sender's socket id, replacing its previous entry, and its decoration
        replaces the socket's previous ones. */
    method HandleCursorMoved(fileId: string, userId: string, socketId: string, username: string,
                             line: int, column: int, decorationId: string)
      modifies this, ws
      requires Valid()
      ensures ws.socket.Some? && file.Some? && IsRemoteForFile(fileId, socketId, file.value.id, ws.socket.value) ==>
                ws.cursors == old(ws.cursors)[socketId := Workspace.RemoteCursor(userId, username, line, column)]
      ensures !(ws.socket.Some? && file.Some? && IsRemoteForFile(fileId, socketId, file.value.id, ws.socket.value)) ==>
                ws.cursors == old(ws.cursors)
      ensures ws.socket.Some? && file.Some? && IsRemoteForFile(fileId, socketId, file.value.id, ws.socket.value) && mounted ==>
                decorations == Redecorate(old(decorations), socketId, decorationId)
      ensures !(ws.socket.Some? && file.Some? && IsRemoteForFile(fileId, socketId, file.value.id, ws.socket.value) && mounted) ==>
                decorations == old(decorations)
      ensures ws.socket == old(ws.socket) && ws.currentProject == old(ws.currentProject)
      ensures ws.files == old(ws.files) && ws.openFiles == old(ws.openFiles)
      ensures ws.activeFileId == old(ws.activeFileId) && ws.activeUsers == old(ws.activeUsers)
      ensures ws.executionOutput == old(ws.executionOutput) && ws.isExecuting == old(ws.isExecuting)
      ensures ws.emitted == old(ws.emitted) && ws.executions == old(ws.executions)
      ensures file == old(file) && code == old(code) && lines == old(lines) && mounted == old(mounted)
      ensures hasUnsavedChanges == old(hasUnsavedChanges) && isSaving == old(isSaving)
      ensures aiEnabled == old(aiEnabled) && isLoadingAI == old(isLoadingAI) && position == old(position)
      ensures Valid()
    {
      if ws.socket.None? || file.None? || !IsRemoteForFile(fileId, socketId, file.value.id, ws.socket.value) {
        return;
      }
      ws.cursors := ws.cursors[socketId := Workspace.RemoteCursor(userId, username, line, column)];
      if !mounted {
        return;
      }
      decorations := Redecorate(decorations, socketId, decorationId);
    }

    /** `handleSave`: with a file, unsaved changes and no save running, the
        code is saved; success clears the dirty flag, failure keeps it, and
        the editor is not saving afterwards. */
    method HandleSave(put: Outcome<()>)
      modifies this, ws
      ensures file.None? || !old(hasUnsavedChanges) || old(isSaving) ==>
                hasUnsavedChanges == old(hasUnsavedChanges) && isSaving == old(isSaving) &&
                ws.files == old(ws.files) && ws.openFiles == old(ws.openFiles) && ws.emitted == old(ws.emitted)
      ensures file.Some? && old(hasUnsavedChanges) && !old(isSaving) ==>
                !isSaving &&
                (hasUnsavedChanges <==> ws.currentProject.None? || put.Err?) &&
                (ws.currentProject.Some? && put.Ok? ==>
                   ws.openFiles == Workspace.WithContent(old(ws.openFiles), file.value.id, code) &&
                   ws.files == Workspace.WithContent(old(ws.files), file.value.id, code) &&
                   ws.emitted == ws.Emit(old(ws.emitted), Workspace.FileSave(ws.currentProject.value.id, file.value.id, code))) &&
                (ws.currentProject.None? || put.Err? ==>
                   ws.openFiles == old(ws.openFiles) && ws.files == old(ws.files) && ws.emitted == old(ws.emitted))
      ensures ws.socket == old(ws.socket) && ws.currentProject == old(ws.currentProject)
      ensures ws.activeFileId == old(ws.activeFileId) && ws.activeUsers == old(ws.activeUsers)
      ensures ws.cursors == old(ws.cursors) && ws.executionOutput == old(ws.executionOutput)
      ensures ws.isExecuting == old(ws.isExecuting) && ws.executions == old(ws.executions)
      ensures file == old(file) && code == old(code) && lines == old(lines) && mounted == old(mounted)
      ensures aiEnabled == old(aiEnabled) && isLoadingAI == old(isLoadingAI)
      ensures position == old(position) && decorations == old(decorations)
      ensures old(ws.Valid()) ==> ws.Valid()
    {
      if file.None? || !hasUnsavedChanges || isSaving {
        return;
      }
      isSaving := true;
      var res := ws.SaveFile(file.value.id, code, put);
      if res.Ok? {
        hasUnsavedChanges := false;
      }
      isSaving := false;
    }

    /** `handleRun`: with a file and no execution running, the code is run in
        the file's language with empty input; a failure is swallowed. */
    method HandleRun(response: Outcome<Workspace.ExecResult>)
      modifies ws
      ensures file.None? || old(ws.isExecuting) ==>
                ws.isExecuting == old(ws.isExecuting) && ws.executionOutput == old(ws.executionOutput) &&
                ws.executions == old(ws.executions)
      ensures file.Some? && !old(ws.isExecuting) ==>
                !ws.isExecuting &&
                ws.executions == old(ws.executions) +
                  [Workspace.ExecRequest(code, file.value.language, "",
                     if ws.currentProject.Some? then Some(ws.currentProject.value.id) else None, ws.activeFileId)] &&
                ws.executionOutput == Some(if response.Ok? then response.value else Workspace.ErrorResult(response.failure))
      ensures ws.socket == old(ws.socket) && ws.currentProject == old(ws.currentProject)
      ensures ws.files == old(ws.files) && ws.openFiles == old(ws.openFiles)
      ensures ws.activeFileId == old(ws.activeFileId) && ws.activeUsers == old(ws.activeUsers)
      ensures ws.cursors == old(ws.cursors) && ws.emitted == old(ws.emitted)
    {
      if file.None? || ws.isExecuting {
        return;
      }
      var _ := ws.ExecuteCode(code, file.value.language, "", response);
    }

    /** `handleClose`: a dirty editor closes its tab only when the user
        confirms; a clean one closes it at once. */
    method HandleClose(confirmed: bool)
      modifies ws
      requires file.Some?
      ensures !hasUnsavedChanges || confirmed ==>
                (ws.openFiles, ws.activeFileId) == Workspace.AfterClose(old(ws.openFiles), old(ws.activeFileId), file.value.id) &&
                ws.emitted == (if ws.currentProject.Some?
                               then ws.Emit(old(ws.emitted), Workspace.FileClose(ws.currentProject.value.id, file.value.id))
                               else old(ws.emitted))
      ensures hasUnsavedChanges && !confirmed ==>
                ws.openFiles == old(ws.openFiles) && ws.activeFileId == old(ws.activeFileId) && ws.emitted == old(ws.emitted)
      ensures ws.socket == old(ws.socket) && ws.currentProject == old(ws.currentProject) && ws.files == old(ws.files)
      ensures ws.activeUsers == old(ws.activeUsers) && ws.cursors == old(ws.cursors)
      ensures ws.executionOutput == old(ws.executionOutput) && ws.isExecuting == old(ws.isExecuting)
      ensures ws.executions == old(ws.executions)
      ensures old(ws.Valid()) ==> ws.Valid()
    {
      if !hasUnsavedChanges || confirmed {
        ws.CloseFile(file.value.id);
      }
    }

    /** The AI chip: toggles completions. */
    method ToggleAi()
      modifies this
      ensures aiEnabled == !old(aiEnabled)
      ensures file == old(file) && code == old(code) && lines == old(lines) && mounted == old(mounted)
      ensures hasUnsavedChanges == old(hasUnsavedChanges) && isSaving == old(isSaving)
      ensures isLoadingAI == old(isLoadingAI) && position == old(position) && decorations == old(decorations)
    {
      aiEnabled := !aiEnabled;
    }

    /** `getAICompletion`: with completions enabled, none loading and the
        editor mounted (before mount `editor.getModel()` throws and nothing
        happens), a suggestion that is not blank is inserted at the cursor. The insertion
        is an edit of the model, so `onChange` runs `handleEditorChange` on
        the new text: the code follows, the editor is dirty and the edit is
        broadcast. The cursor then moves to the end of the inserted text. */
    method InsertCompletion(suggestion: Outcome<string>)
      modifies this, ws
      requires Valid()
      ensures aiEnabled && !old(isLoadingAI) && mounted && suggestion.Ok? && !Blank(suggestion.value) ==>
                var at := ValidPosition(old(lines), old(position));
                lines == ApplyEdit(old(lines), Change(Range(at.0, at.1, at.0, at.1), suggestion.value)) &&
                code == Join(lines) && hasUnsavedChanges &&
                position == CursorAfterInsert(at.0, at.1, suggestion.value) &&
                ws.emitted == (if ws.socket.Some? && ws.currentProject.Some? && file.Some?
                               then old(ws.emitted) + [Workspace.CodeChange(ws.currentProject.value.id, file.value.id,
                                                                            [LocalChangeAsWritten(code)])]
                               else old(ws.emitted))
      ensures !(aiEnabled && !old(isLoadingAI) && mounted && suggestion.Ok? && !Blank(suggestion.value)) ==>
                lines == old(lines) && position == old(position) && code == old(code) &&
                hasUnsavedChanges == old(hasUnsavedChanges) && ws.emitted == old(ws.emitted)
      ensures ws.socket == old(ws.socket) && ws.currentProject == old(ws.currentProject)
      ensures ws.files == old(ws.files) && ws.openFiles == old(ws.openFiles)
      ensures ws.activeFileId == old(ws.activeFileId) && ws.activeUsers == old(ws.activeUsers)
      ensures ws.cursors == old(ws.cursors) && ws.executionOutput == old(ws.executionOutput)
      ensures ws.isExecuting == old(ws.isExecuting) && ws.executions == old(ws.executions)
      ensures isLoadingAI == old(isLoadingAI)
      ensures file == old(file) && mounted == old(mounted) && isSaving == old(isSaving)
      ensures aiEnabled == old(aiEnabled) && decorations == old(decorations)
      ensures Valid()
    {
      if !aiEnabled || isLoadingAI || !mounted {
        return;
      }
      isLoadingAI := true;
      if suggestion.Ok? && !Blank(suggestion.value) {
        var (line, column) := ValidPosition(lines, position);
        var edited := ApplyEdit(lines, Change(Range(line, column, line, column), suggestion.value));
        lines := edited;
        SplitJoin(edited);
        HandleEditorChange(Join(edited));
        position := CursorAfterInsert(line, column, suggestion.value);
      }
      isLoadingAI := false;
    }
  }
}
